/** Matching records against the active window.  The regular-expression
    engine is not modelled: `re.search(pattern, text)` is the parameter
    `search`, with `ignoreCase` standing for the `re.IGNORECASE` flag. */
module Matching {
  import opened Wrappers
  import opened Seqs
  import opened Dict

  /** `bool(re.search(pattern, text, re.IGNORECASE if ignoreCase else 0))`. */
  type Search = (string, string, bool) -> bool

  /** The elements a raising condition keeps: those it returns `True` for. */
  function Accepts<T>(cond: T -> Result<bool, PyError>): T -> bool {
    x => cond(x) == Success(true)
  }

  /** A list comprehension `[x for x in xs if cond(x)]` whose condition may
      raise: the elements are examined in order and the first exception ends
      the comprehension. */
  function FilterOrRaise<T>(xs: seq<T>, cond: T -> Result<bool, PyError>): (r: Result<seq<T>, PyError>)
    ensures r.Success? <==> forall i :: 0 <= i < |xs| ==> cond(xs[i]).Success?
    ensures r.Success? ==> r.value == Filter(xs, Accepts(cond))
    ensures r.Failure? ==> exists j :: 0 <= j < |xs| && cond(xs[j]).Failure? && r.error == cond(xs[j]).error
                                   && forall k :: 0 <= k < j ==> cond(xs[k]).Success?
  {
    if xs == [] then Success([])
    else
      match cond(xs[0])
      case Failure(e) => Failure(e)
      case Success(keep) =>
        match FilterOrRaise(xs[1..], cond)
        case Failure(e) =>
          assert forall k :: 1 <= k < |xs| ==> xs[k] == xs[1..][k - 1];
          Failure(e)
        case Success(rest) =>
          assert forall k :: 1 <= k < |xs| ==> xs[k] == xs[1..][k - 1];
          Success(if keep then [xs[0]] + rest else rest)
  }

  /** `re.search(m[k1], t1, flags) and re.search(m[k2], t2, flags)` on the
      `match` table `m` of a record: Python's `and` only looks up `m[k2]` when
      the first search succeeded, so a missing `k2` raises only then. */
  function RegexPair(m: Dict<string, string>, k1: string, k2: string, t1: string, t2: string,
                     ignoreCase: bool, search: Search): (r: Result<bool, PyError>)
    ensures Get(m, k1).None? ==> r == Failure(KeyError(k1))
    ensures r == Success(true) <==>
              Get(m, k1).Some? && Get(m, k2).Some?
              && search(Get(m, k1).value, t1, ignoreCase) && search(Get(m, k2).value, t2, ignoreCase)
    ensures r.Failure? <==>
              Get(m, k1).None? || (search(Get(m, k1).value, t1, ignoreCase) && Get(m, k2).None?)
  {
    match Get(m, k1)
    case None => Failure(KeyError(k1))
    case Some(p1) =>
      if !search(p1, t1, ignoreCase) then Success(false)
      else
        match Get(m, k2)
        case None => Failure(KeyError(k2))
        case Some(p2) => Success(search(p2, t2, ignoreCase))
  }

  /** The `match` table of a record, which may be absent. */
  function MatchPair(table: Option<Dict<string, string>>, k1: string, k2: string, t1: string, t2: string,
                     ignoreCase: bool, search: Search): (r: Result<bool, PyError>)
    ensures table.None? ==> r == Failure(KeyError("match"))
    ensures table.Some? ==> r == RegexPair(table.value, k1, k2, t1, t2, ignoreCase, search)
  {
    match table
    case None => Failure(KeyError("match"))
    case Some(m) => RegexPair(m, k1, k2, t1, t2, ignoreCase, search)
  }

  /** The pattern stored under `k`, or `""` when there is none. */
  function PatternOf(table: Option<Dict<string, string>>, k: string): string {
    if table.Some? then Get(table.value, k).GetOr("") else ""
  }

  /** A record that passed `MatchPair` has both patterns, and both matched. */
  lemma MatchPairPatterns(table: Option<Dict<string, string>>, k1: string, k2: string, t1: string, t2: string,
                          ignoreCase: bool, search: Search)
    requires MatchPair(table, k1, k2, t1, t2, ignoreCase, search) == Success(true)
    ensures table.Some? && Get(table.value, k1) == Some(PatternOf(table, k1))
    ensures Get(table.value, k2) == Some(PatternOf(table, k2))
    ensures search(PatternOf(table, k1), t1, ignoreCase) && search(PatternOf(table, k2), t2, ignoreCase)
  {
  }
}
