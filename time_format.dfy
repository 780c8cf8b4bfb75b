/** String-level time normalisation of the current table: a raw timestamp is
    trimmed and read as UTC (a `Z` is appended unless one is already there),
    and an absent timestamp is displayed as "N/A". */
module TimeFormat {
  import opened PilotageData

  /** The characters `String.prototype.trim` removes: ECMAScript WhiteSpace
      (tab, vertical tab, form feed, space, no-break space, byte order mark and
      every space separator) and LineTerminator. */
  predicate IsJsSpace(c: char)
  {
    c == '\t' || c == '\U{000B}' || c == '\U{000C}' || c == ' ' || c == '\U{00A0}' ||
    c == '\U{FEFF}' || c == '\U{1680}' || ('\U{2000}' <= c <= '\U{200A}') ||
    c == '\U{202F}' || c == '\U{205F}' || c == '\U{3000}' ||
    c == '\n' || c == '\r' || c == '\U{2028}' || c == '\U{2029}'
  }

  /** No removable space at either end. */
  predicate IsTrimmed(s: string)
  {
    s == [] || (!IsJsSpace(s[0]) && !IsJsSpace(s[|s| - 1]))
  }

  function TrimStart(s: string): (r: string)
    ensures |r| <= |s| && r == s[|s| - |r|..]
    ensures r == [] || !IsJsSpace(r[0])
  {
    if s != [] && IsJsSpace(s[0]) then TrimStart(s[1..]) else s
  }

  /** What `trimStart` drops is space, and nothing but space. */
  lemma {:induction false} TrimStartDropsOnlySpace(s: string)
    ensures forall i :: 0 <= i < |s| - |TrimStart(s)| ==> IsJsSpace(s[i])
  {
    if s != [] && IsJsSpace(s[0]) {
      TrimStartDropsOnlySpace(s[1..]);
      forall i | 1 <= i < |s| - |TrimStart(s)|
        ensures IsJsSpace(s[i])
      {
        assert s[i] == s[1..][i - 1];
      }
    }
  }

  function TrimEnd(s: string): (r: string)
    ensures |r| <= |s| && r == s[..|r|]
    ensures r == [] || !IsJsSpace(r[|r| - 1])
  {
    if s != [] && IsJsSpace(s[|s| - 1]) then TrimEnd(s[..|s| - 1]) else s
  }

  /** What `trimEnd` drops is space, and nothing but space. */
  lemma {:induction false} TrimEndDropsOnlySpace(s: string)
    ensures forall i :: |TrimEnd(s)| <= i < |s| ==> IsJsSpace(s[i])
  {
    if s != [] && IsJsSpace(s[|s| - 1]) {
      TrimEndDropsOnlySpace(s[..|s| - 1]);
      forall i | |TrimEnd(s)| <= i < |s| - 1
        ensures IsJsSpace(s[i])
      {
        assert s[i] == s[..|s| - 1][i];
      }
    }
  }

  /** `s.trim()`: the input with its leading and trailing white space
      removed, and nothing else. The result is the stretch of `s` from `a`,
      every character before `a` or after the stretch being white space. */
  function Trim(s: string): (r: string)
    ensures |r| <= |s|
    ensures IsTrimmed(r)
    ensures exists a :: TrimmedAt(s, a, r)
  {
    TrimStartDropsOnlySpace(s);
    TrimEndDropsOnlySpace(TrimStart(s));
    TrimMiddle(s, TrimStart(s), TrimEnd(TrimStart(s)));
    TrimEnd(TrimStart(s))
  }

  /** `r` sits in `s` at offset `a` with only white space around it. */
  ghost predicate TrimmedAt(s: string, a: int, r: string)
  {
    0 <= a && a + |r| <= |s| && r == s[a..a + |r|] &&
    (forall i :: 0 <= i < a ==> IsJsSpace(s[i])) &&
    (forall i :: a + |r| <= i < |s| ==> IsJsSpace(s[i]))
  }

  /** A suffix `t` of `s` whose prefix `r` is kept, with only white space
      dropped on either side, sits in `s` surrounded by that white space. */
  lemma TrimMiddle(s: string, t: string, r: string)
    requires |r| <= |t| <= |s| && t == s[|s| - |t|..] && r == t[..|r|]
    requires forall i :: 0 <= i < |s| - |t| ==> IsJsSpace(s[i])
    requires forall i :: |r| <= i < |t| ==> IsJsSpace(t[i])
    ensures TrimmedAt(s, |s| - |t|, r)
  {
    var a := |s| - |t|;
    assert s[a..a + |r|] == r by {
      forall i | 0 <= i < |r|
        ensures s[a..a + |r|][i] == r[i]
      {
        assert s[a + i] == t[i];
      }
    }
    forall i | a + |r| <= i < |s|
      ensures IsJsSpace(s[i])
    {
      assert s[i] == t[i - a];
    }
  }

  /** A string with no removable space at its ends is left alone by trim. */
  lemma TrimFixesTrimmed(s: string)
    requires IsTrimmed(s)
    ensures Trim(s) == s
  {
  }

  lemma TrimIdempotent(s: string)
    ensures Trim(Trim(s)) == Trim(s)
  {
    TrimFixesTrimmed(Trim(s));
  }

  predicate EndsWithZ(s: string)
  {
    |s| > 0 && s[|s| - 1] == 'Z'
  }

  /** The string handed to `new Date` by `convertToSingaporeTime`: the trimmed
      input, with `Z` appended iff it does not already end with `Z`. */
  function ZoneNormalized(s: string): (r: string)
    ensures EndsWithZ(r)
    ensures r == Trim(s) || r == Trim(s) + "Z"
    ensures r == Trim(s) <==> EndsWithZ(Trim(s))
  {
    var t := Trim(s);
    if EndsWithZ(t) then t else t + "Z"
  }

  /** Normalising an already normalised string changes nothing, so
      normalising any number of times adds at most one `Z`. */
  lemma {:induction false} ZoneNormalizedIdempotent(s: string)
    ensures ZoneNormalized(ZoneNormalized(s)) == ZoneNormalized(s)
  {
    var t := Trim(s);
    var n := ZoneNormalized(s);
    if n != t {
      assert n == t + "Z";
      assert n[|n| - 1] == 'Z';
      if t != [] {
        assert n[0] == t[0];
      } else {
        assert n == "Z";
      }
    }
    assert IsTrimmed(n);
    TrimFixesTrimmed(n);
  }

  /** `convertToSingaporeTime` at string level: `None` plays JavaScript's null. */
  function ConvertToSingaporeTime(raw: Option<string>): (r: Option<string>)
    ensures r.None? <==> !Present(raw)
    ensures r.Some? ==> r.value == ZoneNormalized(raw.value)
    ensures r.Some? ==> EndsWithZ(r.value) && ZoneNormalized(r.value) == r.value
  {
    if !Present(raw) then None
    else
      ZoneNormalizedIdempotent(raw.value);
      Some(ZoneNormalized(raw.value))
  }

  /** The instant a present raw timestamp denotes once read as UTC. */
  function InstantOf(host: Host, s: string): int
  {
    host.parse(ZoneNormalized(s))
  }

  /** `formatDateTime`: "N/A" for a null or empty timestamp, otherwise the
      Singapore rendering of the instant the normalised string denotes. */
  function FormatDateTime(host: Host, raw: Option<string>): (r: string)
    ensures !Present(raw) ==> r == "N/A"
    ensures Present(raw) ==> r == host.showSingapore(InstantOf(host, raw.value))
  {
    match ConvertToSingaporeTime(raw)
    case None => "N/A"
    case Some(t) => host.showSingapore(host.parse(t))
  }

  /** An estimated time: a fixed number of minutes after the instant a raw
      timestamp denotes when handed to `new Date` as it is (not normalised). */
  datatype Eta = Eta(anchor: string, minutes: int)

  /** `new Date(anchor).getTime() + minutes * 60 * 1000`: the estimate lies
      the offset's milliseconds after the anchor, so never before it. */
  function EtaInstant(host: Host, e: Eta): (t: int)
    ensures t - host.parse(e.anchor) == e.minutes * 60 * 1000
    ensures e.minutes >= 0 ==> t >= host.parse(e.anchor)
  {
    host.parse(e.anchor) + e.minutes * MinuteMs
  }

  /** `formatDateTime(new Date(t).toISOString())`: the ISO rendering goes
      through the same normalisation as any feed timestamp. */
  function FormatInstant(host: Host, t: int): (r: string)
    ensures host.toIso(t) != "" ==> r == host.showSingapore(InstantOf(host, host.toIso(t)))
  {
    FormatDateTime(host, Some(host.toIso(t)))
  }

  /** The displayed form of an estimate. */
  function Estimated(host: Host, e: Eta): (r: string)
    ensures host.toIso(EtaInstant(host, e)) == "" ==> r == "N/A"
    ensures host.toIso(EtaInstant(host, e)) != "" ==>
      r == host.showSingapore(InstantOf(host, host.toIso(EtaInstant(host, e))))
  {
    FormatInstant(host, EtaInstant(host, e))
  }
}
