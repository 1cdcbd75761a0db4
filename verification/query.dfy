/**
 * Query normalisation and the cache key of the public endpoint
 * (api/public-heavy.js, the first lines of the exported handler).
 */
module HeavyQuery {
  import opened Wrappers
  import opened Decimal

  datatype Mode = Before | After

  function ModeName(m: Mode): string {
    match m
    case Before => "before"
    case After => "after"
  }

  /** The raw query string values; a parameter may be missing. */
  datatype Query = Query(mode: Option<string>, size: Option<string>, rounds: Option<string>)

  /** The normalised request parameters. */
  datatype Params = Params(mode: Mode, size: nat, rounds: nat)

  const DefaultSize: nat := 30000
  const DefaultRounds: nat := 80

  /** Only the exact text `before` selects the unoptimised path; anything else, or nothing, is `after`. */
  function ParseMode(raw: Option<string>): (m: Mode)
    ensures m == Before ==> raw == Some(ModeName(Before))
    ensures raw == Some(ModeName(Before)) ==> m == Before
  {
    if raw == Some("before") then Before else After
  }

  /** Printing a mode and reading it back gives the same mode. */
  lemma ParseModeName(m: Mode)
    ensures ParseMode(Some(ModeName(m))) == m
  {
  }

  /**
   * A numeric parameter: missing or empty text takes `default` (`x || default`
   * treats `""` as false), a digit string reads as its decimal value, and any
   * other text is outside this model (`None`).
   */
  function ParseCount(raw: Option<string>, default: nat): (r: Option<nat>)
    ensures raw == None || raw == Some("") ==> r == Some(default)
    ensures raw.Some? && raw.value != "" && AllDigits(raw.value) ==> r == Some(ValueOf(raw.value))
    ensures r.None? <==> raw.Some? && !AllDigits(raw.value)
  {
    match raw
    case None => Some(default)
    case Some(text) =>
      if text == "" then Some(default)
      else if AllDigits(text) then Some(ValueOf(text))
      else None
  }

  /** A number printed in the canonical way parses back to itself. */
  lemma ParseCountShow(n: nat, default: nat)
    ensures ParseCount(Some(Show(n)), default) == Some(n)
  {
    ValueOfShow(n);
  }

  /** The parameters a query stands for, or `None` when a number is outside this model. */
  function Normalise(q: Query): (r: Option<Params>)
    ensures r.Some? <==> ParseCount(q.size, DefaultSize).Some? && ParseCount(q.rounds, DefaultRounds).Some?
    ensures r.Some? ==> r.value.mode == ParseMode(q.mode)
    ensures r.Some? ==> Some(r.value.size) == ParseCount(q.size, DefaultSize)
    ensures r.Some? ==> Some(r.value.rounds) == ParseCount(q.rounds, DefaultRounds)
  {
    match (ParseCount(q.size, DefaultSize), ParseCount(q.rounds, DefaultRounds))
    case (Some(size), Some(rounds)) => Some(Params(ParseMode(q.mode), size, rounds))
    case _ => None
  }

  /** A request without parameters runs the optimised path on the default workload. */
  lemma NormaliseEmptyQuery()
    ensures Normalise(Query(None, None, None)) == Some(Params(After, DefaultSize, DefaultRounds))
  {
  }

  // ---------------------------------------------------------------------------
  // The cache key `mode:size:rounds`

  /** The key `mode:size:rounds`; it always decodes back to the parameters that built it. */
  function CacheKey(p: Params): (key: string)
    ensures DecodeKey(key) == Some(p)
  {
    DecodeJoinedKey(p.mode, p.size, p.rounds);
    ModeName(p.mode) + ":" + Show(p.size) + ":" + Show(p.rounds)
  }

  /** The position of the first `:` in `s`, or `|s|` when there is none. */
  function IndexOfColon(s: string): (i: nat)
    ensures i <= |s|
    ensures i < |s| ==> s[i] == ':'
    ensures forall j :: 0 <= j < i ==> s[j] != ':'
  {
    if |s| == 0 || s[0] == ':' then 0 else 1 + IndexOfColon(s[1..])
  }

  /** The text before and after the first `:`, if there is one. */
  function SplitAtColon(s: string): (r: Option<(string, string)>)
    ensures r.Some? ==> s == r.value.0 + ":" + r.value.1 && ':' !in r.value.0
    ensures r.None? ==> ':' !in s
  {
    var i := IndexOfColon(s);
    if i == |s| then None
    else
      assert s == s[..i] + ":" + s[i + 1..];
      Some((s[..i], s[i + 1..]))
  }

  /** Splitting at the first `:` undoes joining with `:` when the left part holds none. */
  lemma SplitAtColonJoin(a: string, b: string)
    requires ':' !in a
    ensures SplitAtColon(a + ":" + b) == Some((a, b))
  {
    var s := a + ":" + b;
    assert s[|a|] == ':';
    var i := IndexOfColon(s);
    assert i == |a|;
    assert s[..i] == a;
    assert s[i + 1..] == b;
  }

  function ModeOfName(name: string): Option<Mode> {
    if name == "before" then Some(Before)
    else if name == "after" then Some(After)
    else None
  }

  /** Reads a cache key back into the parameters it was built from. */
  function DecodeKey(key: string): Option<Params> {
    match SplitAtColon(key)
    case None => None
    case Some((name, rest)) =>
      match SplitAtColon(rest)
      case None => None
      case Some((size, rounds)) =>
        match ModeOfName(name)
        case None => None
        case Some(mode) =>
          if AllDigits(size) && AllDigits(rounds) then Some(Params(mode, ValueOf(size), ValueOf(rounds)))
          else None
  }

  /** Joining a mode name and two printed counts with `:` decodes back to them. */
  lemma DecodeJoinedKey(mode: Mode, size: nat, rounds: nat)
    ensures DecodeKey(ModeName(mode) + ":" + Show(size) + ":" + Show(rounds)) == Some(Params(mode, size, rounds))
  {
    var name := ModeName(mode);
    var sizeText := Show(size);
    var roundsText := Show(rounds);
    assert ':' !in name;
    assert ':' !in sizeText;
    assert name + ":" + sizeText + ":" + roundsText == name + ":" + (sizeText + ":" + roundsText);
    SplitAtColonJoin(name, sizeText + ":" + roundsText);
    SplitAtColonJoin(sizeText, roundsText);
    ValueOfShow(size);
    ValueOfShow(rounds);
  }

  /** Distinct parameters never share a cache entry. */
  lemma CacheKeyInjective(p: Params, q: Params)
    ensures CacheKey(p) == CacheKey(q) ==> p == q
  {
    assert DecodeKey(CacheKey(p)) == Some(p);
    assert DecodeKey(CacheKey(q)) == Some(q);
  }
}
