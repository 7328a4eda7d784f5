/**
 Following the ledger. Each id has at most one row, so redirects form a
 functional graph; resolution walks it with a cycle check and a depth cap. Where
 the graph ends from every id, the walk is the true chain, cut only by the cap.
 */
module Redirects {
  import opened Wrappers
  import opened AliasLedger

  type Links = map<string, Disposition>

  /** Where a `mapped` row sends an id. */
  function Next(links: Links, id: string): Option<string> {
    if id in links && links[id].Mapped? then Some(links[id].newId) else None
  }

  datatype Answer =
    | Found(chain: seq<string>)
    | UnknownId
    | Cycle(chain: seq<string>)
    | TooLong(chain: seq<string>)
    | Dangling(chain: seq<string>)
    | Ambiguous(chain: seq<string>, candidates: seq<string>)
    | CarriedAsAssertion(chain: seq<string>, assertionId: nat)
    | NotCarriedForward(chain: seq<string>, kind: TerminalKind)

  function Last(chain: seq<string>): string
    requires chain != []
  {
    chain[|chain| - 1]
  }

  /** What an id that no `mapped` row redirects means. */
  function Settle(links: Links, entities: set<string>, chain: seq<string>): Answer
    requires chain != [] && Next(links, Last(chain)).None?
  {
    var id := Last(chain);
    if id in links then
      match links[id]
      case AmbiguousSplit(candidates) => Ambiguous(chain, candidates)
      case MappedAssertion(a) => CarriedAsAssertion(chain, a)
      case Terminal(kind) => NotCarriedForward(chain, kind)
    else if id in entities then Found(chain)
    else if |chain| == 1 then UnknownId
    else Dangling(chain)
  }

  /** The walk from a chain already followed. */
  function Walk(links: Links, entities: set<string>, chain: seq<string>, cap: nat): Answer
    requires chain != []
    decreases cap + 2 - |chain|
  {
    if |chain| - 1 > cap then TooLong(chain)
    else
      var next := Next(links, Last(chain));
      if next.None? then Settle(links, entities, chain)
      else if next.value in chain then Cycle(chain + [next.value])
      else Walk(links, entities, chain + [next.value], cap)
  }

  /** `resolve` as it runs: follow rows, remembering what was visited, until something other than a redirect answers. */
  method Resolve(links: Links, entities: set<string>, id: string, cap: nat) returns (answer: Answer)
    ensures answer == Walk(links, entities, [id], cap)
  {
    var chain, visited, current := [id], {id}, id;
    while |chain| - 1 <= cap
      invariant chain != [] && current == Last(chain) && (forall x :: x in visited <==> x in chain)
      invariant Walk(links, entities, [id], cap) == Walk(links, entities, chain, cap)
      decreases cap + 2 - |chain|
    {
      if current in links {
        match links[current]
        case Mapped(next) =>
          if next in visited { return Cycle(chain + [next]); }
          visited := visited + {next};
          chain := chain + [next];
          current := next;
        case AmbiguousSplit(candidates) => return Ambiguous(chain, candidates);
        case MappedAssertion(a) => return CarriedAsAssertion(chain, a);
        case Terminal(kind) => return NotCarriedForward(chain, kind);
      } else if current in entities {
        return Found(chain);
      } else if |chain| == 1 {
        return UnknownId;
      } else {
        return Dangling(chain);
      }
    }
    return TooLong(chain);
  }

  // ------------------------------------------------------------------ true chains

  /** Exactly `n` redirects lead from this id to one that is not redirected. */
  ghost predicate EndsIn(links: Links, id: string, n: nat)
    decreases n
  {
    if Next(links, id).None? then n == 0
    else n > 0 && EndsIn(links, Next(links, id).value, n - 1)
  }

  /** Every id the redirects lead through, from this one to the last. */
  ghost function Chain(links: Links, id: string, n: nat): (chain: seq<string>)
    requires EndsIn(links, id, n)
    ensures |chain| == n + 1 && chain[0] == id && Next(links, Last(chain)).None?
    decreases n
  {
    if n == 0 then [id] else [id] + Chain(links, Next(links, id).value, n - 1)
  }

  lemma {:induction false} ChainSteps(links: Links, id: string, n: nat, i: nat)
    requires EndsIn(links, id, n) && i <= n
    ensures EndsIn(links, Chain(links, id, n)[i], n - i)
    ensures i < n ==> Next(links, Chain(links, id, n)[i]) == Some(Chain(links, id, n)[i + 1])
    decreases n
  {
    if i > 0 { ChainSteps(links, Next(links, id).value, n - 1, i - 1); }
  }

  lemma {:induction false} OneEnd(links: Links, id: string, m: nat, n: nat)
    requires EndsIn(links, id, m) && EndsIn(links, id, n)
    ensures m == n
    decreases m
  {
    if m > 0 && n > 0 { OneEnd(links, Next(links, id).value, m - 1, n - 1); }
  }

  /** A chain that ends never visits an id twice. */
  lemma {:induction false} ChainIsSimple(links: Links, id: string, n: nat, i: nat, j: nat)
    requires EndsIn(links, id, n) && i < j <= n
    ensures Chain(links, id, n)[i] != Chain(links, id, n)[j]
  {
    var chain := Chain(links, id, n);
    ChainSteps(links, id, n, i);
    ChainSteps(links, id, n, j);
    if chain[i] == chain[j] { OneEnd(links, chain[i], n - i, n - j); }
  }

  lemma {:induction false} WalkFollowsChain(links: Links, entities: set<string>, id: string, n: nat, k: nat, cap: nat)
    requires EndsIn(links, id, n) && k <= n && k <= cap + 1
    ensures Walk(links, entities, Chain(links, id, n)[..k + 1], cap) ==
            if n > cap then TooLong(Chain(links, id, n)[..cap + 2]) else Settle(links, entities, Chain(links, id, n))
    decreases n - k
  {
    var chain := Chain(links, id, n);
    var sofar := chain[..k + 1];
    if k == n {
      assert sofar == chain;
    } else if k <= cap {
      ChainSteps(links, id, n, k);
      assert Next(links, Last(sofar)) == Some(chain[k + 1]);
      forall i | 0 <= i < |sofar| ensures sofar[i] != chain[k + 1] { ChainIsSimple(links, id, n, i, k + 1); }
      assert sofar + [chain[k + 1]] == chain[..k + 2];
      WalkFollowsChain(links, entities, id, n, k + 1, cap);
    }
  }

  /** Where redirects end, resolution is the true chain: too long exactly when it exceeds the cap, and never a cycle. */
  lemma {:induction false} ResolveIsChain(links: Links, entities: set<string>, id: string, n: nat, cap: nat)
    requires EndsIn(links, id, n)
    ensures Walk(links, entities, [id], cap) ==
            if n > cap then TooLong(Chain(links, id, n)[..cap + 2]) else Settle(links, entities, Chain(links, id, n))
  {
    assert Chain(links, id, n)[..1] == [id];
    WalkFollowsChain(links, entities, id, n, 0, cap);
  }

  /** A walk that found an entity followed the true chain to its end. */
  lemma {:induction false} FoundMeansEnds(links: Links, entities: set<string>, chain: seq<string>, cap: nat)
    requires chain != [] && Walk(links, entities, chain, cap).Found?
    ensures var found := Walk(links, entities, chain, cap).chain;
            && |chain| <= |found| && found[..|chain|] == chain
            && EndsIn(links, Last(chain), |found| - |chain|)
            && Chain(links, Last(chain), |found| - |chain|) == found[|chain| - 1..]
            && Last(found) in entities && Last(found) !in links
    decreases cap + 2 - |chain|
  {
    var next := Next(links, Last(chain));
    if next.Some? {
      var longer := chain + [next.value];
      FoundMeansEnds(links, entities, longer, cap);
      var found := Walk(links, entities, chain, cap).chain;
      assert found[..|chain|] == longer[..|chain|] == chain;
      assert found[|chain| - 1..] == [Last(chain)] + found[|chain|..];
    }
  }

  /** Different ids, each redirected by its row to the one after it. */
  ghost predicate Trail(links: Links, chain: seq<string>) {
    && chain != [] && (forall i, j :: 0 <= i < j < |chain| ==> chain[i] != chain[j])
    && (forall i, j :: 0 <= i && j == i + 1 < |chain| ==> chain[i] in links && links[chain[i]] == Mapped(chain[j]))
  }

  lemma {:induction false} WalkAlong(links: Links, entities: set<string>, chain: seq<string>, k: nat, cap: nat)
    requires Trail(links, chain) && 1 <= k <= |chain| <= cap + 2
    ensures Walk(links, entities, chain[..k], cap) == Walk(links, entities, chain, cap)
    decreases |chain| - k
  {
    if k == |chain| {
      assert chain[..k] == chain;
    } else {
      var sofar := chain[..k];
      assert Next(links, Last(sofar)) == Some(chain[k]);
      assert chain[k] !in sofar;
      assert sofar + [chain[k]] == chain[..k + 1];
      WalkAlong(links, entities, chain, k + 1, cap);
    }
  }

  /**
   What resolving the first id of a trail answers: too long past the cap; a cycle where
   the trail turns back on itself; and otherwise what the last id is: the row that
   settled it, an entity, or nothing known.
   */
  lemma {:induction false} ResolutionAnswers(links: Links, entities: set<string>, chain: seq<string>, cap: nat)
    requires Trail(links, chain)
    ensures var answer, end := Walk(links, entities, [chain[0]], cap), chain[|chain| - 1];
            && (|chain| == cap + 2 ==> answer == TooLong(chain))
            && (|chain| <= cap + 1 && end !in links ==>
                  answer ==
                  if end in entities then Found(chain) else if |chain| == 1 then UnknownId else Dangling(chain))
            && (|chain| <= cap + 1 && end in links ==>
                  match links[end]
                  case AmbiguousSplit(candidates) => answer == Ambiguous(chain, candidates)
                  case MappedAssertion(a) => answer == CarriedAsAssertion(chain, a)
                  case Terminal(kind) => answer == NotCarriedForward(chain, kind)
                  case Mapped(next) => next in chain ==> answer == Cycle(chain + [next]))
  {
    if |chain| <= cap + 2 {
      assert chain[..1] == [chain[0]];
      WalkAlong(links, entities, chain, 1, cap);
    }
  }

  // ------------------------------------------------------------------ adding a row

  /** Ids redirected nowhere stay so; chains that did not end at the new row's id are untouched. */
  lemma {:induction false} OtherChainsStay(links: Links, from: string, d: Disposition, id: string, n: nat)
    requires from !in links && EndsIn(links, id, n) && Last(Chain(links, id, n)) != from
    ensures EndsIn(links[from := d], id, n) && Chain(links[from := d], id, n) == Chain(links, id, n)
    decreases n
  {
    var more := links[from := d];
    assert Chain(links, id, n)[0] == id;
    if n == 0 {
      assert Chain(links, id, n) == [id];
    } else {
      var next := Next(links, id).value;
      assert Chain(links, id, n) == [id] + Chain(links, next, n - 1);
      assert Last(Chain(links, next, n - 1)) == Last(Chain(links, id, n));
      OtherChainsStay(links, from, d, next, n - 1);
      assert Next(more, id) == Next(links, id);
    }
  }

  /** Chains that ended at the new row's id now run on through its target's chain. */
  lemma {:induction false} ChainsRunOn(links: Links, from: string, into: string, m: nat, id: string, n: nat)
    requires from !in links && EndsIn(links, into, m) && Last(Chain(links, into, m)) != from
    requires EndsIn(links, id, n) && Last(Chain(links, id, n)) == from
    ensures EndsIn(links[from := Mapped(into)], id, n + 1 + m)
    ensures Chain(links[from := Mapped(into)], id, n + 1 + m) == Chain(links, id, n) + Chain(links, into, m)
    decreases n
  {
    var more := links[from := Mapped(into)];
    OtherChainsStay(links, from, Mapped(into), into, m);
    if n == 0 {
      assert Chain(links, id, n) == [id] && Next(more, id) == Some(into);
    } else {
      var next := Next(links, id).value;
      assert Chain(links, id, n) == [id] + Chain(links, next, n - 1);
      ChainsRunOn(links, from, into, m, next, n - 1);
      assert Next(more, id) == Some(next);
      assert [id] + (Chain(links, next, n - 1) + Chain(links, into, m)) == Chain(links, id, n) + Chain(links, into, m);
    }
  }

  ghost predicate Ends(links: Links, id: string) {
    exists n: nat :: EndsIn(links, id, n)
  }

  /** Every id's redirects end. */
  ghost predicate Terminates(links: Links) {
    forall id: string :: Ends(links, id)
  }

  /** The chain from this id ends, and begins with these ids. */
  ghost predicate RunsThrough(links: Links, id: string, ids: seq<string>) {
    exists n: nat :: EndsIn(links, id, n) && ids <= Chain(links, id, n)
  }

  /** Where every chain was, it still is, and may only have grown at its end. */
  ghost predicate ChainsGrew(before: Links, after: Links) {
    forall id: string, n: nat :: EndsIn(before, id, n) ==> RunsThrough(after, id, Chain(before, id, n))
  }

  lemma {:induction false} GrewTerminates(before: Links, after: Links)
    requires Terminates(before) && ChainsGrew(before, after)
    ensures Terminates(after)
  {
    forall id: string ensures Ends(after, id) {
      assert Ends(before, id);
      var n: nat :| EndsIn(before, id, n);
      assert RunsThrough(after, id, Chain(before, id, n));
    }
  }

  lemma {:induction false} SameNexts(links: Links, more: Links, id: string, n: nat)
    requires EndsIn(links, id, n) && forall x :: Next(more, x) == Next(links, x)
    ensures EndsIn(more, id, n) && Chain(more, id, n) == Chain(links, id, n)
    decreases n
  {
    if n > 0 { SameNexts(links, more, Next(links, id).value, n - 1); }
  }

  lemma {:induction false} RunsAsBefore(links: Links, id: string, n: nat, ids: seq<string>)
    requires EndsIn(links, id, n) && ids <= Chain(links, id, n)
    ensures RunsThrough(links, id, ids)
  {
  }

  lemma {:induction false} SameNextsGrew(links: Links, more: Links)
    requires forall x :: Next(more, x) == Next(links, x)
    ensures ChainsGrew(links, more)
  {
    forall id: string, n: nat | EndsIn(links, id, n) ensures RunsThrough(more, id, Chain(links, id, n)) {
      SameNexts(links, more, id, n);
      RunsAsBefore(more, id, n, Chain(links, id, n));
    }
  }

  /** A row that redirects nowhere ends chains where they ended. */
  lemma {:induction false} EndRowGrows(links: Links, from: string, d: Disposition)
    requires from !in links && !d.Mapped?
    ensures ChainsGrew(links, links[from := d])
  {
    SameNextsGrew(links, links[from := d]);
  }

  /** A redirect to an id whose chain does not come back through it only lengthens chains. */
  lemma {:induction false} RedirectGrows(links: Links, from: string, into: string, m: nat)
    requires from !in links && EndsIn(links, into, m) && from !in Chain(links, into, m)
    ensures ChainsGrew(links, links[from := Mapped(into)])
  {
    var more := links[from := Mapped(into)];
    assert Last(Chain(links, into, m)) in Chain(links, into, m);
    forall id: string, n: nat | EndsIn(links, id, n) ensures RunsThrough(more, id, Chain(links, id, n)) {
      if Last(Chain(links, id, n)) == from {
        ChainsRunOn(links, from, into, m, id, n);
        RunsAsBefore(more, id, n + 1 + m, Chain(links, id, n));
      } else {
        OtherChainsStay(links, from, Mapped(into), id, n);
        RunsAsBefore(more, id, n, Chain(links, id, n));
      }
    }
  }

  lemma {:induction false} StillRunsThrough(before: Links, after: Links, id: string, ids: seq<string>)
    requires RunsThrough(before, id, ids) && ChainsGrew(before, after)
    ensures RunsThrough(after, id, ids)
  {
    var m: nat :| EndsIn(before, id, m) && ids <= Chain(before, id, m);
    assert RunsThrough(after, id, Chain(before, id, m));
    var k: nat :| EndsIn(after, id, k) && Chain(before, id, m) <= Chain(after, id, k);
    PrefixOfPrefix(ids, Chain(before, id, m), Chain(after, id, k));
  }

  lemma {:induction false} PrefixOfPrefix<T>(xs: seq<T>, ys: seq<T>, zs: seq<T>)
    requires xs <= ys && ys <= zs
    ensures xs <= zs
  {
  }

  lemma {:induction false} ChainsGrewTransitive(a: Links, b: Links, c: Links)
    requires ChainsGrew(a, b) && ChainsGrew(b, c)
    ensures ChainsGrew(a, c)
  {
    forall id: string, n: nat | EndsIn(a, id, n) ensures RunsThrough(c, id, Chain(a, id, n)) {
      StillRunsThrough(b, c, id, Chain(a, id, n));
    }
  }
}
