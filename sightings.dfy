/** edr-plugins/misp/sightings.py: indicator values extracted from Sysmon
    events, a per-source cooldown cache, and the event handler that reports
    sightings to the intel platform. */
module Sightings {
  import opened Wrappers
  import opened Text
  import opened Seqs
  import opened Events

  /** A clock reading and a length of time, in one unit (microseconds). */
  type Time = int
  type Duration = int

  const PathEventData := "/Event/EventData"

  const SysmonPathHashes := PathEventData + "/Hashes"
  const SysmonPathImage := PathEventData + "/Image"
  const SysmonPathSourceImage := PathEventData + "/SourceImage"
  const SysmonPathImageLoaded := PathEventData + "/ImageLoaded"
  const SysmonPathParentImage := PathEventData + "/ParentImage"
  const SysmonPathOriginalFileName := PathEventData + "/OriginalFileName"
  const SysmonPathTargetFilename := PathEventData + "/TargetFilename"
  const SysmonPathDestinationHostname := PathEventData + "/DestinationHostname"
  const SysmonPathDestinationIp := PathEventData + "/DestinationIp"
  const SysmonPathDestinationIpv6 := PathEventData + "/DestinationIpv6"
  const SysmonPathSourceHostname := PathEventData + "/SourceHostname"
  const SysmonPathSourceIp := PathEventData + "/SourceIp"
  const SysmonPathSourceIpv6 := PathEventData + "/SourceIpv6"
  const SysmonPathTargetObject := PathEventData + "/TargetObject"
  const SysmonPathPipeName := PathEventData + "/PipeName"
  const SysmonPathQueryName := PathEventData + "/QueryName"
  const SysmonPathQueryResults := PathEventData + "/QueryResults"

  const EdrPathImageHashes := PathEventData + "/ImageHashes"
  const EdrPathSourceHashes := PathEventData + "/SourceHashes"

  const EdrPathEndpoint := "/Event/EdrData/Endpoint"
  const EdrPathEndpointUuid := EdrPathEndpoint + "/UUID"
  const EdrPathEndpointHostname := EdrPathEndpoint + "/Hostname"

  /** `SIGHTINGS_PATHS`, in the order values are extracted. */
  const SightingsPaths: seq<string> := [
    SysmonPathHashes,
    SysmonPathImage,
    SysmonPathSourceImage,
    SysmonPathImageLoaded,
    SysmonPathParentImage,
    SysmonPathOriginalFileName,
    SysmonPathTargetFilename,
    SysmonPathDestinationHostname,
    SysmonPathDestinationIp,
    SysmonPathDestinationIpv6,
    SysmonPathSourceHostname,
    SysmonPathSourceIp,
    SysmonPathSourceIpv6,
    SysmonPathTargetObject,
    SysmonPathPipeName,
    SysmonPathQueryName,
    SysmonPathQueryResults,
    EdrPathImageHashes,
    EdrPathSourceHashes
  ]

  const SysmonChannel := "Microsoft-Windows-Sysmon/Operational"

  /** How the value found at a path is turned into sightings. */
  datatype FieldKind = HashList | Hostname | IpList | Plain

  /** The dispatch of `sysmon_sightings`, on the path being read. */
  function KindOf(p: string): FieldKind
  {
    if p in [SysmonPathHashes, EdrPathImageHashes, EdrPathSourceHashes] then HashList
    else if p in [SysmonPathDestinationHostname, SysmonPathSourceHostname] then Hostname
    else if p == SysmonPathQueryResults then IpList
    else Plain
  }

  /** Why extraction raises: a `Hashes` field that does not unpack, or a
      `QueryResults` value that is not a string and has no `split`. */
  datatype ExtractError = BadHashes(cause: HashError) | NotAString

  /** `event.get(p) is None`: a missing path and a JSON null look alike. */
  predicate Absent(v: Option<Value>)
  {
    v.None? || v == Some(Null)
  }

  function AsStrings(vs: seq<string>): (r: seq<Value>)
    ensures |r| == |vs| && forall i :: 0 <= i < |vs| ==> r[i] == Str(vs[i])
  {
    seq(|vs|, i requires 0 <= i < |vs| => Str(vs[i]))
  }

  /** The `;`-separated segments that `parseIp` (standing for
      `str(ipaddress.ip_address(...))`) accepts, in order; the others are dropped. */
  function ParsedIps(segs: seq<string>, parseIp: string -> Option<string>): (r: seq<Value>)
    ensures forall x :: x in r ==> x.Str? && exists i :: 0 <= i < |segs| && parseIp(segs[i]) == Some(x.s)
    ensures forall i :: 0 <= i < |segs| && parseIp(segs[i]).Some? ==> Str(parseIp(segs[i]).value) in r
  {
    if segs == [] then []
    else
      var init := ParsedIps(segs[..|segs| - 1], parseIp);
      assert forall i :: 0 <= i < |segs| - 1 ==> segs[..|segs| - 1][i] == segs[i];
      match parseIp(segs[|segs| - 1])
      case Some(ip) => init + [Str(ip)]
      case None => init
  }

  /** The sightings one present field contributes. */
  function FieldSightings(kind: FieldKind, v: Value, parseIp: string -> Option<string>): Result<seq<Value>, ExtractError>
  {
    match kind
    case HashList =>
      (match SysmonHashes(v)
       case Ok(d) => Ok(AsStrings(Values(d)))
       case Err(x) => Err(BadHashes(x)))
    case Hostname => Ok(if v == Str("-") then [] else [v])
    case IpList => if v.Str? then Ok(ParsedIps(Split(v.s, ';'), parseIp)) else Err(NotAString)
    case Plain => Ok([v])
  }

  /** The sightings read at one path of the table; an absent path gives none. */
  function PathSightings(e: Event, p: string, parseIp: string -> Option<string>): Result<seq<Value>, ExtractError>
  {
    var v := Get(e, p);
    if Absent(v) then Ok([]) else FieldSightings(KindOf(p), v.value, parseIp)
  }

  /** What one path of the table contributes: its sightings, or the reason the
      extraction stops. */
  type Contribution = Result<seq<Value>, ExtractError>

  /** The contributions of `paths`, in order. */
  function Contributions(e: Event, paths: seq<string>, parseIp: string -> Option<string>): seq<Contribution>
    decreases |paths|
  {
    if paths == [] then [] else [PathSightings(e, paths[0], parseIp)] + Contributions(e, paths[1..], parseIp)
  }

  /** Accumulating contributions onto `acc` until one fails. */
  function Accumulate(acc: seq<Value>, cs: seq<Contribution>): Contribution
    decreases |cs|
  {
    if cs == [] then Ok(acc)
    else
      match cs[0]
      case Err(x) => Err(x)
      case Ok(xs) => Accumulate(acc + xs, cs[1..])
  }

  /** The contributions concatenated; the first failing one decides the error. */
  function Concat(cs: seq<Contribution>): Contribution
    decreases |cs|
  {
    if cs == [] then Ok([])
    else
      match cs[0]
      case Err(x) => Err(x)
      case Ok(xs) =>
        match Concat(cs[1..])
        case Err(x) => Err(x)
        case Ok(ys) => Ok(xs + ys)
  }

  /** Accumulating gives what was accumulated, followed by the concatenation. */
  lemma {:induction false} AccumulateIsConcat(acc: seq<Value>, cs: seq<Contribution>)
    decreases |cs|
    ensures Accumulate(acc, cs) ==
      match Concat(cs)
      case Err(x) => Err(x)
      case Ok(ys) => Ok(acc + ys)
  {
    if cs == [] {
      assert acc + [] == acc;
    } else {
      match cs[0]
      case Err(x) =>
      case Ok(xs) =>
        AccumulateIsConcat(acc + xs, cs[1..]);
        match Concat(cs[1..])
        case Err(x) =>
        case Ok(ys) =>
          assert acc + xs + ys == acc + (xs + ys);
    }
  }

  /** The loop of `sysmon_sightings` over `paths`, from the list `acc` built so far. */
  function ExtractFrom(e: Event, acc: seq<Value>, paths: seq<string>, parseIp: string -> Option<string>): Contribution
  {
    Accumulate(acc, Contributions(e, paths, parseIp))
  }

  /** `sysmon_sightings` as a value. */
  function SysmonSightingsOf(e: Event, parseIp: string -> Option<string>): Contribution
  {
    ExtractFrom(e, [], SightingsPaths, parseIp)
  }

  /** Reference definition: the contributions of the paths, concatenated in
      table order; the first failing path decides the error. */
  function Concatenated(e: Event, paths: seq<string>, parseIp: string -> Option<string>): Contribution
  {
    Concat(Contributions(e, paths, parseIp))
  }

  /** The accumulating loop yields what was accumulated, followed by the
      contributions of the remaining paths in order. */
  lemma ExtractIsConcatenation(e: Event, acc: seq<Value>, paths: seq<string>, parseIp: string -> Option<string>)
    ensures ExtractFrom(e, acc, paths, parseIp) ==
      match Concatenated(e, paths, parseIp)
      case Err(x) => Err(x)
      case Ok(ys) => Ok(acc + ys)
  {
    AccumulateIsConcat(acc, Contributions(e, paths, parseIp));
  }

  /** `sysmon_sightings` gives the table's contributions, concatenated in table order. */
  lemma SightingsInTableOrder(e: Event, parseIp: string -> Option<string>)
    ensures SysmonSightingsOf(e, parseIp) == Concatenated(e, SightingsPaths, parseIp)
  {
    ExtractIsConcatenation(e, [], SightingsPaths, parseIp);
    match Concatenated(e, SightingsPaths, parseIp)
    case Err(x) =>
    case Ok(ys) =>
      assert [] + ys == ys;
  }

  /** A hash field contributes lower-case strings only. */
  lemma HashSightingsLower(v: Value, parseIp: string -> Option<string>)
    requires FieldSightings(HashList, v, parseIp).Ok?
    ensures var xs := FieldSightings(HashList, v, parseIp).value;
      forall i :: 0 <= i < |xs| ==> xs[i].Str? && IsLower(xs[i].s)
  {
    var d := SysmonHashes(v).value;
    assert AllLower(d) by {
      if v.Str? {
        assert AllLower([]);
      }
    }
  }

  /** On the two hostname paths, a missing value or the sentinel `-`
      contributes nothing; any other value is contributed as it is. */
  lemma HostnameSentinel(e: Event, p: string, parseIp: string -> Option<string>)
    requires p == SysmonPathDestinationHostname || p == SysmonPathSourceHostname
    ensures var v := Get(e, p);
      PathSightings(e, p, parseIp) == Ok(if Absent(v) || v == Some(Str("-")) then [] else [v.value])
  {
    assert KindOf(p) == Hostname;
  }

  /** `str(x)` in the f-string that names the source. */
  function Display(v: Option<Value>): string
  {
    match v
    case None => "None"
    case Some(Null) => "None"
    case Some(Bool(b)) => if b then "True" else "False"
    case Some(Num(n)) => if n < 0 then "-" + Digits(-n) else Digits(n)
    case Some(Str(s)) => s
    case Some(List(_)) => "[...]"
    case Some(Dict(_)) => "{...}"
  }

  function Digits(n: nat): string
    decreases n
  {
    var d := ["0", "1", "2", "3", "4", "5", "6", "7", "8", "9"][n % 10];
    if n < 10 then d else Digits(n / 10) + d
  }

  /** The sighting source, `uuid|hostname` of the reporting endpoint. */
  function SourceOf(e: Event): string
  {
    Display(Get(e, EdrPathEndpointUuid)) + "|" + Display(Get(e, EdrPathEndpointHostname))
  }

  /** The values `on_event` hands to the cache filter: extraction runs only on
      Sysmon events. */
  function Candidates(e: Event, parseIp: string -> Option<string>): Result<seq<Value>, ExtractError>
  {
    if Channel(e) == Some(Str(SysmonChannel)) then SysmonSightingsOf(e, parseIp) else Ok([])
  }

  /** The values `on_event` sends for `e`, given the cache's state before the call. */
  function ToSend(c: map<string, map<Value, Time>>, e: Event, parseIp: string -> Option<string>,
                  ttl: Duration, now: Time): Result<seq<Value>, ExtractError>
  {
    match Candidates(e, parseIp)
    case Err(x) => Err(x)
    case Ok(xs) => Ok(Kept(SourceEntries(c, SourceOf(e)), xs, ttl, now))
  }

  /** The per-source record of when each value was last reported. */
  function SourceEntries(c: map<string, map<Value, Time>>, source: string): map<Value, Time>
  {
    if source in c then c[source] else map[]
  }

  /** The cooldown rule: a value is reported again only when strictly more
      than `delta` has elapsed since it was last reported. */
  predicate Eligible(entries: map<Value, Time>, x: Value, delta: Duration, now: Time)
  {
    x !in entries || now - entries[x] > delta
  }

  /** `SightCache.filter` as a value. */
  function Kept(entries: map<Value, Time>, xs: seq<Value>, delta: Duration, now: Time): seq<Value>
  {
    Filter(x => Eligible(entries, x, delta, now), xs)
  }

  /** `entries` after setting each of `xs` to `now`, in order. */
  function Stamped(entries: map<Value, Time>, xs: seq<Value>, now: Time): map<Value, Time>
  {
    if xs == [] then entries else Stamped(entries, xs[..|xs| - 1], now)[xs[|xs| - 1] := now]
  }

  /** `SightCache.update` as a value: the source's map is created when missing. */
  function Recorded(c: map<string, map<Value, Time>>, source: string, xs: seq<Value>, now: Time): map<string, map<Value, Time>>
  {
    c[source := Stamped(SourceEntries(c, source), xs, now)]
  }

  /** Stamping sets every stamped value to `now` and leaves the rest alone. */
  lemma {:induction false} StampedFacts(entries: map<Value, Time>, xs: seq<Value>, now: Time)
    ensures Stamped(entries, xs, now).Keys == entries.Keys + set x | x in xs
    ensures forall x :: x in xs ==> x in Stamped(entries, xs, now) && Stamped(entries, xs, now)[x] == now
    ensures forall x :: x !in xs && x in entries ==> x in Stamped(entries, xs, now) && Stamped(entries, xs, now)[x] == entries[x]
  {
    if xs != [] {
      var init := xs[..|xs| - 1];
      StampedFacts(entries, init, now);
      assert xs == init + [xs[|xs| - 1]];
      assert (set x | x in xs) == (set x | x in init) + {xs[|xs| - 1]};
    }
  }

  /** An update touches only the one source, and within it only the values given. */
  lemma RecordedFacts(c: map<string, map<Value, Time>>, source: string, xs: seq<Value>, now: Time)
    ensures var r := Recorded(c, source, xs, now);
      && source in r
      && r[source].Keys == SourceEntries(c, source).Keys + set x | x in xs
      && (forall x :: x in xs ==> x in r[source] && r[source][x] == now)
      && (forall x :: x !in xs && x in SourceEntries(c, source) ==> x in r[source] && r[source][x] == c[source][x])
      && (forall other :: other != source ==> (other in r <==> other in c))
      && (forall other :: other != source && other in c ==> r[other] == c[other])
  {
    StampedFacts(SourceEntries(c, source), xs, now);
  }

  /** A value survives the filter exactly when the cooldown rule lets it, and
      then every copy of it does. */
  lemma KeptIff(entries: map<Value, Time>, xs: seq<Value>, delta: Duration, now: Time, x: Value)
    ensures x in Kept(entries, xs, delta, now) <==> x in xs && Eligible(entries, x, delta, now)
    ensures multiset(Kept(entries, xs, delta, now))[x] ==
      if Eligible(entries, x, delta, now) then multiset(xs)[x] else 0
  {
    FilterCount(x => Eligible(entries, x, delta, now), xs, x);
  }

  /** The filter keeps the order of the candidates. */
  lemma KeptIsSubsequence(entries: map<Value, Time>, xs: seq<Value>, delta: Duration, now: Time)
    ensures IsSubsequence(Kept(entries, xs, delta, now), xs)
  {
    FilterIsSubsequence(x => Eligible(entries, x, delta, now), xs);
  }

  /** A source never updated filters nothing out. */
  lemma FreshSourceKeepsAll(c: map<string, map<Value, Time>>, source: string, xs: seq<Value>, delta: Duration, now: Time)
    requires source !in c
    ensures Kept(SourceEntries(c, source), xs, delta, now) == xs
  {
    FilterKeepsAll(x => Eligible(map[], x, delta, now), xs);
  }

  /** Once reported at `t`, a value is filtered out until more than `delta` has
      elapsed, and comes back afterwards. */
  lemma Cooldown(c: map<string, map<Value, Time>>, source: string, reported: seq<Value>, t: Time,
                 x: Value, delta: Duration, now: Time)
    requires x in reported
    ensures Kept(SourceEntries(Recorded(c, source, reported, t), source), [x], delta, now) ==
      if now - t > delta then [x] else []
  {
    RecordedFacts(c, source, reported, t);
    var r := Recorded(c, source, reported, t);
    var entries := SourceEntries(r, source);
    assert entries == Stamped(SourceEntries(c, source), reported, t);
    StampedFacts(SourceEntries(c, source), reported, t);
    assert x in entries && entries[x] == t;
    assert [x][..0] == [];
    assert Kept(entries, [x], delta, now) == if Eligible(entries, x, delta, now) then [x] else [];
  }

  /** A value is reported for a source at most once per cooldown: right after a
      report, none of the reported values passes the filter again. */
  lemma NoRepeatWithinCooldown(c: map<string, map<Value, Time>>, source: string, reported: seq<Value>, t: Time,
                               xs: seq<Value>, delta: Duration, now: Time)
    requires now - t <= delta
    ensures forall x :: x in reported ==> x !in Kept(SourceEntries(Recorded(c, source, reported, t), source), xs, delta, now)
  {
    RecordedFacts(c, source, reported, t);
    var r := Recorded(c, source, reported, t);
    var entries := SourceEntries(r, source);
    assert entries == Stamped(SourceEntries(c, source), reported, t);
    StampedFacts(SourceEntries(c, source), reported, t);
    forall x | x in reported
      ensures x !in Kept(entries, xs, delta, now)
    {
      KeptIff(entries, xs, delta, now, x);
      assert x in entries && entries[x] == t;
    }
  }

  /** The object `on_event` passes to `add_sighting`; its filter is always `to_ids = 1`. */
  datatype Sighting = Sighting(values: seq<Value>, toIds: int, source: string)

  /** How one call of `on_event` ends. */
  datatype EventOutcome =
    | ExtractFailed(error: ExtractError)
    | NothingToSend
    | Delivered(sighting: Sighting)
    | SendFailed(sighting: Sighting)

  /** `SightCache`: per source, the time each value was last reported. */
  class SightCache {
    var entries: map<string, map<Value, Time>>

    constructor ()
      ensures entries == map[]
    {
      entries := map[];
    }

    /** `update`: every value given is stamped with `now`. */
    method Update(source: string, sightings: seq<Value>, now: Time)
      modifies this
      ensures entries == Recorded(old(entries), source, sightings, now)
    {
      if source !in entries {
        entries := entries[source := map[]];
      }
      var i := 0;
      while i < |sightings|
        invariant 0 <= i <= |sightings|
        invariant entries == Recorded(old(entries), source, sightings[..i], now)
      {
        assert sightings[..i + 1][..i] == sightings[..i];
        entries := entries[source := entries[source][sightings[i] := now]];
        i := i + 1;
      }
      assert sightings[..i] == sightings;
    }

    /** `filter`: the candidates the cooldown rule lets through, in order. */
    method Filter(source: string, sightings: seq<Value>, delta: Duration, now: Time) returns (out: seq<Value>)
      ensures out == Kept(SourceEntries(entries, source), sightings, delta, now)
      ensures source !in entries ==> out == sightings
    {
      if source !in entries {
        FreshSourceKeepsAll(entries, source, sightings, delta, now);
        return sightings;
      }
      out := [];
      var sourceCache := entries[source];
      var i := 0;
      while i < |sightings|
        invariant 0 <= i <= |sightings|
        invariant out == Kept(sourceCache, sightings[..i], delta, now)
      {
        var s := sightings[i];
        assert sightings[..i + 1][..i] == sightings[..i];
        if s in sourceCache {
          if now - sourceCache[s] > delta {
            out := out + [s];
          }
        } else {
          out := out + [s];
        }
        i := i + 1;
      }
      assert sightings[..i] == sightings;
    }
  }

  /** `SightingsUpdater`: the event handler; `sent` records the calls made to
      `add_sighting`, in order. */
  class SightingsUpdater {
    const cache: SightCache
    const cacheTtl: Duration
    var sent: seq<Sighting>

    constructor (cacheTtl: Duration)
      ensures fresh(cache) && cache.entries == map[]
      ensures this.cacheTtl == cacheTtl && sent == []
    {
      cache := new SightCache();
      this.cacheTtl := cacheTtl;
      sent := [];
    }

    /** `sysmon_sightings`: the loop over `SIGHTINGS_PATHS`. */
    method SysmonSightings(e: Event, parseIp: string -> Option<string>) returns (r: Result<seq<Value>, ExtractError>)
      ensures r == SysmonSightingsOf(e, parseIp)
    {
      r := ExtractPaths(e, SightingsPaths, parseIp);
    }

    /** The loop of `sysmon_sightings`, over any table of paths. */
    static method ExtractPaths(e: Event, paths: seq<string>, parseIp: string -> Option<string>)
      returns (r: Result<seq<Value>, ExtractError>)
      ensures r == ExtractFrom(e, [], paths, parseIp)
    {
      var s: seq<Value> := [];
      var i := 0;
      while i < |paths|
        invariant 0 <= i <= |paths|
        invariant ExtractFrom(e, s, paths[i..], parseIp) == ExtractFrom(e, [], paths, parseIp)
      {
        assert paths[i..][1..] == paths[i + 1..];
        var appended := AppendPath(s, e, paths[i], parseIp);
        if appended.Err? {
          return Err(appended.error);
        }
        s := appended.value;
        i := i + 1;
      }
      r := Ok(s);
    }

    /** One iteration of `sysmon_sightings`: an absent path is skipped, a
        present one contributes according to its kind. */
    static method AppendPath(s: seq<Value>, e: Event, p: string, parseIp: string -> Option<string>)
      returns (r: Result<seq<Value>, ExtractError>)
      ensures r == match PathSightings(e, p, parseIp)
        case Ok(xs) => Ok(s + xs)
        case Err(x) => Err(x)
    {
      var v := Get(e, p);
      if Absent(v) {
        assert s + [] == s;
        return Ok(s);
      }
      var kind := KindOf(p);
      if kind == HashList {
        r := AppendHashes(s, v.value);
      } else if kind == Hostname {
        if v.value != Str("-") {
          r := Ok(s + [v.value]);
        } else {
          assert s + [] == s;
          r := Ok(s);
        }
      } else if kind == IpList {
        r := AppendIps(s, v.value, parseIp);
      } else {
        r := Ok(s + [v.value]);
      }
    }

    /** The branch of `sysmon_sightings` for hash fields: append each value of
        `parse_sysmon_hashes(v)`. */
    static method AppendHashes(s: seq<Value>, v: Value) returns (r: Result<seq<Value>, ExtractError>)
      ensures r == match FieldSightings(HashList, v, _ => None)
        case Ok(xs) => Ok(s + xs)
        case Err(x) => Err(x)
    {
      var hashes := ParseSysmonHashes(v);
      if hashes.Err? {
        return Err(BadHashes(hashes.error));
      }
      var values := Values(hashes.value);
      var out := s;
      var j := 0;
      while j < |values|
        invariant 0 <= j <= |values|
        invariant out == s + AsStrings(values[..j])
      {
        out := out + [Str(values[j])];
        j := j + 1;
      }
      assert values[..j] == values;
      r := Ok(out);
    }

    /** The branch of `sysmon_sightings` for `QueryResults`: append each
        `;`-segment that parses as an IP address. */
    static method AppendIps(s: seq<Value>, v: Value, parseIp: string -> Option<string>) returns (r: Result<seq<Value>, ExtractError>)
      ensures r == match FieldSightings(IpList, v, parseIp)
        case Ok(xs) => Ok(s + xs)
        case Err(x) => Err(x)
    {
      if !v.Str? {
        return Err(NotAString);
      }
      var segs := Split(v.s, ';');
      var out := s;
      var j := 0;
      while j < |segs|
        invariant 0 <= j <= |segs|
        invariant out == s + ParsedIps(segs[..j], parseIp)
      {
        assert segs[..j + 1][..j] == segs[..j];
        match parseIp(segs[j]) {
          case Some(ip) => out := out + [Str(ip)];
          case None =>
        }
        j := j + 1;
      }
      assert segs[..j] == segs;
      r := Ok(out);
    }

    /** `on_event`: extract, filter through the cache, send, and record what was
        sent only once the send has returned. `filterNow` and `updateNow` are the
        two clock readings; `sendReturns` says whether `add_sighting` returned
        or raised. */
    method OnEvent(e: Event, parseIp: string -> Option<string>, filterNow: Time, updateNow: Time, sendReturns: bool)
      returns (outcome: EventOutcome)
      modifies this, cache
      ensures var plan := ToSend(old(cache.entries), e, parseIp, cacheTtl, filterNow);
        plan.Err? ==> outcome == ExtractFailed(plan.error) && cache.entries == old(cache.entries) && sent == old(sent)
      ensures ToSend(old(cache.entries), e, parseIp, cacheTtl, filterNow) == Ok([]) ==>
        outcome == NothingToSend && cache.entries == old(cache.entries) && sent == old(sent)
      ensures var plan := ToSend(old(cache.entries), e, parseIp, cacheTtl, filterNow);
        plan.Ok? && plan.value != [] ==>
          var st := Sighting(plan.value, 1, SourceOf(e));
          && sent == old(sent) + [st]
          && (sendReturns ==>
                outcome == Delivered(st) && cache.entries == Recorded(old(cache.entries), SourceOf(e), plan.value, updateNow))
          && (!sendReturns ==> outcome == SendFailed(st) && cache.entries == old(cache.entries))
    {
      ghost var plan := ToSend(cache.entries, e, parseIp, cacheTtl, filterNow);
      var source := SourceOf(e);
      var sightings: seq<Value> := [];
      if Channel(e) == Some(Str(SysmonChannel)) {
        var extracted := SysmonSightings(e, parseIp);
        assert Candidates(e, parseIp) == SysmonSightingsOf(e, parseIp);
        if extracted.Err? {
          return ExtractFailed(extracted.error);
        }
        sightings := extracted.value;
      } else {
        assert Candidates(e, parseIp) == Ok([]);
      }
      sightings := cache.Filter(source, sightings, cacheTtl, filterNow);
      assert plan == Ok(sightings);
      if |sightings| > 0 {
        var sighting := Sighting(sightings, 1, source);
        sent := sent + [sighting];
        if !sendReturns {
          return SendFailed(sighting);
        }
        cache.Update(source, sightings, updateNow);
        return Delivered(sighting);
      }
      return NothingToSend;
    }
  }
}
