/** The audit logger (services/log_service.py) as the controller sees it:
    fire-and-forget writes of (level, action, detail), kept here as the
    sequence of entries written so far. */
module Logging {
  import Clock

  datatype Level = Info | Warning | Error | Security

  datatype Entry = Entry(level: Level, action: string, detail: string)

  /** `str(n)` for a natural number: the decimal digits of `n`, no leading
      zero. */
  function DigitsOf(n: nat): (r: string)
    ensures |r| >= 1 && forall i :: 0 <= i < |r| ==> '0' <= r[i] <= '9'
    ensures |r| > 1 ==> r[0] != '0'
    ensures Clock.AllDigits(r) && Clock.DigitsValue(r) == n
    decreases n
  {
    if n < 10 then [('0' as int + n) as char]
    else
      var init := DigitsOf(n / 10);
      var r := init + [('0' as int + n % 10) as char];
      assert r[..|r| - 1] == init;
      r
  }

  /** `f"id={account_id}"`: the id in decimal after `id=`, with a minus sign
      when it is negative. */
  function IdDetail(id: int): (r: string)
    ensures |r| > 3 && r[..3] == "id="
    ensures id >= 0 ==> r[3..] == DigitsOf(id) && Clock.DigitsValue(r[3..]) == id
    ensures id < 0 ==> r[3..] == "-" + DigitsOf(-id) && Clock.DigitsValue(r[4..]) == -id
  {
    var digits := if id < 0 then "-" + DigitsOf(-id) else DigitsOf(id);
    var r := "id=" + digits;
    assert r[3..] == digits;
    assert id < 0 ==> r[4..] == DigitsOf(-id);
    r
  }

  class LogService {
    var entries: seq<Entry>

    constructor ()
      ensures entries == []
    {
      entries := [];
    }

    method Info(action: string, detail: string)
      modifies this
      ensures entries == old(entries) + [Entry(Level.Info, action, detail)]
    {
      entries := entries + [Entry(Level.Info, action, detail)];
    }

    method Warning(action: string, detail: string)
      modifies this
      ensures entries == old(entries) + [Entry(Level.Warning, action, detail)]
    {
      entries := entries + [Entry(Level.Warning, action, detail)];
    }

    method Error(action: string, detail: string)
      modifies this
      ensures entries == old(entries) + [Entry(Level.Error, action, detail)]
    {
      entries := entries + [Entry(Level.Error, action, detail)];
    }

    method Security(action: string, detail: string)
      modifies this
      ensures entries == old(entries) + [Entry(Level.Security, action, detail)]
    {
      entries := entries + [Entry(Level.Security, action, detail)];
    }
  }
}
