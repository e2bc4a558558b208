/** String helpers of pywhids/utils.py: `removesuffix` and the part of
    `parse_rfc3339_nano_timestamp` that rewrites an RFC 3339 (section 5.6)
    timestamp into a form that `datetime.fromisoformat` accepts. */
module Utils {
  import opened Wrappers
  import opened Text

  /** `removesuffix(s, suffix)`: an empty suffix never strips anything. */
  function RemoveSuffix(s: string, suffix: string): (r: string)
    ensures suffix == [] ==> r == s
    ensures suffix != [] && EndsWith(s, suffix) ==> r + suffix == s
    ensures !EndsWith(s, suffix) ==> r == s
  {
    if suffix != [] && EndsWith(s, suffix) then s[..|s| - |suffix|] else s
  }

  /** Why normalisation raises: the unpack of `split("T")` or `split(".")` fails,
      or no zone marker was found. */
  datatype TimestampError = NotOneT | UnexpectedTimezone | NotOneDot

  /** The pieces the normalised timestamp is built from. */
  datatype Stamp = Stamp(date: string, clock: string, fraction: string, offset: string)

  /** The string handed to `datetime.fromisoformat`. */
  function Render(st: Stamp): string
  {
    st.date + "T" + st.clock + "." + st.fraction + st.offset
  }

  /** Separate the zone from the time part: one `-` wins over one `+`, which wins
      over a trailing `Z` (every trailing `Z` is stripped and the offset is `+00:00`);
      no marker leaves the zone undetermined. */
  function SplitZone(time: string): (z: Option<(string, string)>)
    ensures Count(time, '-') == 1 ==>
      z == Some((time[..IndexOf(time, '-')], "-" + time[IndexOf(time, '-') + 1..]))
    ensures Count(time, '-') != 1 && Count(time, '+') == 1 ==>
      z == Some((time[..IndexOf(time, '+')], "+" + time[IndexOf(time, '+') + 1..]))
    ensures Count(time, '-') != 1 && Count(time, '+') != 1 ==>
      z == if EndsWith(time, "Z") then Some((RStrip(time, 'Z'), "+00:00")) else None
  {
    var minus := Split(time, '-');
    if |minus| == 2 then
      SplitOnce(time, '-');
      Some((minus[0], "-" + minus[1]))
    else
      var plus := Split(time, '+');
      if |plus| == 2 then
        SplitOnce(time, '+');
        Some((plus[0], "+" + plus[1]))
      else if EndsWith(time, "Z") then Some((RStrip(time, 'Z'), "+00:00"))
      else None
  }

  /** Fractional seconds cut to six digits, or right-padded with `0` up to six. */
  function SixDigits(nano: string): (r: string)
    ensures |r| == 6
    ensures |nano| >= 6 ==> r == nano[..6]
    ensures |nano| < 6 ==> r[..|nano|] == nano && forall i :: |nano| <= i < 6 ==> r[i] == '0'
  {
    var cut := if |nano| >= 6 then nano[..6] else nano;
    cut + seq(6 - |cut|, _ => '0')
  }

  /** The normalisation steps after the `T`: the zone is split off the time
      part, then exactly one `.` separates clock and fraction. */
  function ParseTime(date: string, time: string): (r: Result<Stamp, TimestampError>)
    ensures SplitZone(time).None? <==> r == Err(UnexpectedTimezone)
    ensures SplitZone(time).Some? ==>
      var z := SplitZone(time).value;
      if Count(z.0, '.') != 1 then r == Err(NotOneDot)
      else
        var j := IndexOf(z.0, '.');
        r == Ok(Stamp(date, z.0[..j], SixDigits(z.0[j + 1..]), z.1))
  {
    match SplitZone(time)
    case None => Err(UnexpectedTimezone)
    case Some(z) =>
      var cf := Split(z.0, '.');
      if |cf| != 2 then Err(NotOneDot)
      else
        SplitOnce(z.0, '.');
        Ok(Stamp(date, cf[0], SixDigits(cf[1]), z.1))
  }

  /** The normalisation steps: exactly one `T` separates date and time. */
  function ParseStamp(ts: string): (r: Result<Stamp, TimestampError>)
    ensures Count(ts, 'T') != 1 <==> r == Err(NotOneT)
    ensures Count(ts, 'T') == 1 ==> r == ParseTime(ts[..IndexOf(ts, 'T')], ts[IndexOf(ts, 'T') + 1..])
  {
    var dt := Split(ts, 'T');
    if |dt| != 2 then Err(NotOneT)
    else
      SplitOnce(ts, 'T');
      ParseTime(dt[0], dt[1])
  }

  /** The normalised text of `parse_rfc3339_nano_timestamp`, before parsing. */
  function NormalizeTimestamp(ts: string): Result<string, TimestampError>
  {
    match ParseStamp(ts)
    case Ok(st) => Ok(Render(st))
    case Err(e) => Err(e)
  }

  /** The rendered text starts with the date and `T` and ends with the
      fraction and the offset. */
  lemma RenderShape(st: Stamp)
    ensures StartsWith(Render(st), st.date + "T")
    ensures EndsWith(Render(st), "." + st.fraction + st.offset)
  {
    assert Render(st) == (st.date + "T") + (st.clock + ("." + st.fraction + st.offset));
    ConcatEnds(st.date + "T", st.clock + ("." + st.fraction + st.offset));
    assert Render(st) == (st.date + "T" + st.clock) + ("." + st.fraction + st.offset);
    ConcatEnds(st.date + "T" + st.clock, "." + st.fraction + st.offset);
  }

  /** A timestamp that normalises has exactly one `T`, and the text before it
      is passed through unchanged, followed by `T`. */
  lemma DatePassThrough(ts: string)
    ensures NormalizeTimestamp(ts).Ok? ==>
      && Count(ts, 'T') == 1
      && StartsWith(NormalizeTimestamp(ts).value, ts[..IndexOf(ts, 'T')] + "T")
      && |ParseStamp(ts).value.fraction| == 6
  {
    if NormalizeTimestamp(ts).Ok? {
      var st := ParseStamp(ts).value;
      assert Count(ts, 'T') == 1;
      assert st.date == ts[..IndexOf(ts, 'T')];
      RenderShape(st);
    }
  }

  /** A `Z`-terminated time part with no `-` or `+` formats as UTC. */
  lemma ZuluIsUtc(ts: string)
    requires Count(ts, 'T') == 1
    requires var time := ts[IndexOf(ts, 'T') + 1..];
      '-' !in time && '+' !in time && EndsWith(time, "Z") && Count(RStrip(time, 'Z'), '.') == 1
    ensures NormalizeTimestamp(ts).Ok? && ParseStamp(ts).value.offset == "+00:00"
  {
  }
}
