/** The in-memory notification log: `showNotification` builds an entry and
    puts it at the front, so the log reads newest first. */
module Notifications {
  import opened Text

  /** The `type` argument of showNotification, 'info' by default. */
  datatype Kind = Info | Warning | Urgent | Success | Error

  /** One entry; its `id` and `time` come from the clock and are not kept. */
  datatype Notification = Notification(title: string, message: string, kind: Kind)

  /** Array.prototype.unshift of one entry onto the log. */
  function Prepend(log: seq<Notification>, n: Notification): (r: seq<Notification>)
    ensures |r| == |log| + 1 && r[0] == n && r[1..] == log
  {
    [n] + log
  }

  /** The entry addXp shows after a level up, naming the new level. */
  function LevelUpNotice(level: nat): (n: Notification)
    ensures n.kind == Success && n.title == "Level Up!"
    ensures n.message == "You reached level " + Decimal(level) + "!"
  {
    Notification("Level Up!", "You reached level " + Decimal(level) + "!", Success)
  }

  /** The entry of the due-date scan: urgent within a quarter of an hour. */
  function DueSoonNotice(text: string, minutes: nat): (n: Notification)
    ensures n.kind == Urgent <==> minutes <= 15
    ensures n.kind == Warning <==> minutes > 15
  {
    Notification("Task Due Soon!", "\"" + text + "\" is due in " + Decimal(minutes) + " minutes",
                 if minutes <= 15 then Urgent else Warning)
  }

  /** The entry of a finished focus session. */
  function TimerDoneNotice(): Notification {
    Notification("Focus Timer Complete!", "Time to take a break!", Success)
  }

  /** changePassword calls showNotification(text, kind) with two arguments,
      so the text lands in `title`, the intended kind in `message`, and the
      entry keeps the default kind. */
  function TwoArgumentNotice(text: string, second: string): (n: Notification)
    ensures n.title == text && n.message == second && n.kind == Info
  {
    Notification(text, second, Info)
  }
}
