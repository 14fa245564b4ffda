/** An independent reading of "edit distance": an edit script is a list of
    single-token operations read left to right against the source sequence,
    and its cost counts every operation other than keeping a token. The
    theorem `LevIsMinimalEditCost` shows that `Lev` is exactly the least cost
    of a script turning one sequence into the other. */
module EditScripts {
  import opened LevenshteinSpec

  datatype Option<T> = None | Some(value: T)

  /** One step of an alignment: keep the next source token, replace it with
      `x`, insert `x` before it, or delete it. */
  datatype Edit<T> = Keep | Substitute(x: T) | Insert(x: T) | Delete

  /** Unit cost for every change, nothing for keeping a token. */
  function EditCost<T>(e: Edit<T>): nat {
    if e.Keep? then 0 else 1
  }

  /** Total cost of a script. */
  function Cost<T>(script: seq<Edit<T>>): nat {
    if |script| == 0 then 0
    else Cost(script[..|script| - 1]) + EditCost(script[|script| - 1])
  }

  /** The sequence a script produces from `a`, or `None` when the script does
      not consume `a` exactly (it keeps, replaces or deletes a token that is
      not there, or leaves tokens of `a` unvisited). The last operation acts
      on the last token of `a` and produces the last token of the result. */
  function Apply<T>(script: seq<Edit<T>>, a: seq<T>): Option<seq<T>>
    decreases |script|
  {
    if |script| == 0 then
      if |a| == 0 then Some([]) else None
    else
      var rest := script[..|script| - 1];
      match script[|script| - 1]
      case Insert(x) =>
        Append(Apply(rest, a), x)
      case Keep =>
        if |a| == 0 then None else Append(Apply(rest, a[..|a| - 1]), a[|a| - 1])
      case Substitute(x) =>
        if |a| == 0 then None else Append(Apply(rest, a[..|a| - 1]), x)
      case Delete =>
        if |a| == 0 then None else Apply(rest, a[..|a| - 1])
  }

  function Append<T>(r: Option<seq<T>>, x: T): Option<seq<T>> {
    match r
    case None => None
    case Some(s) => Some(s + [x])
  }

  /** A cheapest script from `a` to `b`, read off the Levenshtein recurrence
      by following, at each cell, a neighbour that attains the minimum. */
  function OptimalScript<T(==)>(a: seq<T>, b: seq<T>): (script: seq<Edit<T>>)
    ensures Apply(script, a) == Some(b)
    ensures Cost(script) == Lev(a, b)
    decreases |a| + |b|
  {
    if |a| == 0 && |b| == 0 then []
    else if |a| == 0 then
      var j := |b| - 1;
      assert b == b[..j] + [b[j]];
      Snoc(OptimalScript(a, b[..j]), Insert(b[j]))
    else if |b| == 0 then
      var i := |a| - 1;
      Snoc(OptimalScript(a[..i], b), Delete)
    else
      var i, j := |a| - 1, |b| - 1;
      assert b == b[..j] + [b[j]];
      if Lev(a, b) == Lev(a[..i], b) + 1 then
        Snoc(OptimalScript(a[..i], b), Delete)
      else if Lev(a, b) == Lev(a, b[..j]) + 1 then
        Snoc(OptimalScript(a, b[..j]), Insert(b[j]))
      else if a[i] == b[j] then
        Snoc(OptimalScript(a[..i], b[..j]), Keep)
      else
        Snoc(OptimalScript(a[..i], b[..j]), Substitute(b[j]))
  }

  /** Adding one operation at the end of a script. */
  function Snoc<T>(script: seq<Edit<T>>, e: Edit<T>): (r: seq<Edit<T>>)
    ensures |r| == |script| + 1 && r[..|script|] == script && r[|script|] == e
    ensures Cost(r) == Cost(script) + EditCost(e)
  {
    var r := script + [e];
    assert r[..|script|] == script;
    r
  }

  /** No script turning `a` into `b` is cheaper than `Lev(a, b)`. */
  lemma {:induction false} CostAtLeastLev<T>(script: seq<Edit<T>>, a: seq<T>, b: seq<T>)
    requires Apply(script, a) == Some(b)
    ensures Cost(script) >= Lev(a, b)
    decreases |script|
  {
    if |script| != 0 {
      var rest := script[..|script| - 1];
      match script[|script| - 1]
      case Insert(x) =>
        var r := Apply(rest, a).value;
        assert b == r + [x] && b[..|b| - 1] == r;
        CostAtLeastLev(rest, a, r);
      case Keep =>
        var i := |a| - 1;
        var r := Apply(rest, a[..i]).value;
        assert b == r + [a[i]] && b[..|b| - 1] == r;
        CostAtLeastLev(rest, a[..i], r);
      case Substitute(x) =>
        var i := |a| - 1;
        var r := Apply(rest, a[..i]).value;
        assert b == r + [x] && b[..|b| - 1] == r;
        CostAtLeastLev(rest, a[..i], r);
      case Delete =>
        CostAtLeastLev(rest, a[..|a| - 1], b);
    }
  }

  /** `Lev(a, b)` is the minimum number of single-token insertions, deletions
      and substitutions that turn `a` into `b`: some script attains it and no
      script does better. */
  lemma LevIsMinimalEditCost<T>(a: seq<T>, b: seq<T>)
    ensures exists script :: Apply(script, a) == Some(b) && Cost(script) == Lev(a, b)
    ensures forall script :: Apply(script, a) == Some(b) ==> Cost(script) >= Lev(a, b)
  {
    var best := OptimalScript(a, b);
    assert Apply(best, a) == Some(b) && Cost(best) == Lev(a, b);
    forall script | Apply(script, a) == Some(b)
      ensures Cost(script) >= Lev(a, b)
    {
      CostAtLeastLev(script, a, b);
    }
  }
}
