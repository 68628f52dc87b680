/** `formatTime` of index.js: one total of seconds shown at once as seconds,
    minutes, hours and days. Each coarser unit is floored from the previous
    one, which makes every unit an independent floor of the same total (not a
    breakdown whose parts add up to it). */
module TimeFormat {
  import Decimal
  import opened Floor

  datatype TimeParts = TimeParts(seconds: int, minutes: int, hours: int, days: int)

  /** The parts of the rendered time for a total of `seconds`, computed as
      index.js does: minutes from seconds, hours from minutes, days from hours. */
  function FormatTime(seconds: int): (p: TimeParts)
    ensures p.seconds == seconds
    ensures IsFloorDiv(seconds, 60, p.minutes)
    ensures IsFloorDiv(seconds, 3600, p.hours)
    ensures IsFloorDiv(seconds, 86400, p.days)
  {
    var minutes := seconds / 60;
    var hours := minutes / 60;
    var days := hours / 24;
    NestedFloorDiv(seconds, 60, 60);
    NestedFloorDiv(seconds, 3600, 24);
    TimeParts(seconds, minutes, hours, days)
  }

  /** The text `formatTime` returns: "<s>s | <m>m | <h>h | <d>d". */
  function TimeText(p: TimeParts): (s: string)
    ensures Decimal.IntText(p.seconds) + "s | " <= s
  {
    Decimal.IntText(p.seconds) + "s | " + Decimal.IntText(p.minutes) + "m | "
      + Decimal.IntText(p.hours) + "h | " + Decimal.IntText(p.days) + "d"
  }

  /** The worked example: 3725 seconds is 62 whole minutes, 1 whole hour and
      no whole day. */
  lemma Example3725()
    ensures FormatTime(3725) == TimeParts(3725, 62, 1, 0)
    ensures TimeText(FormatTime(3725)) == "3725s | 62m | 1h | 0d"
  {
    assert Decimal.NatText(3725) == "3725" by {
      assert Decimal.NatText(3) == "3";
      assert Decimal.NatText(37) == "37";
      assert Decimal.NatText(372) == "372";
    }
    assert Decimal.NatText(62) == "62" by {
      assert Decimal.NatText(6) == "6";
    }
  }
}
