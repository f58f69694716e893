/**
`reorderRepos`: a drag in the renderer sends the repo ids in their new order. The
store accepts exactly a duplicate-free permutation of the ids it has.
*/
module RepoOrder {
  import opened Options
  import opened WorkspaceSession

  /** An element of the ids a caller sends: a string, or something else. */
  datatype IdArgument = Text(id: string) | NotText

  /** The repo ids, in list order. */
  function IdsOf(repos: seq<Repo>): seq<string> {
    seq(|repos|, i requires 0 <= i < |repos| => repos[i].id)
  }

  predicate AllText(ids: seq<IdArgument>) {
    forall i | 0 <= i < |ids| :: ids[i].Text?
  }

  function Texts(ids: seq<IdArgument>): seq<string>
    requires AllText(ids)
  {
    seq(|ids|, i requires 0 <= i < |ids| => ids[i].id)
  }

  predicate Distinct<T(==)>(xs: seq<T>) {
    forall i, j | 0 <= i < j < |xs| :: xs[i] != xs[j]
  }

  /** The ids list every repo's id exactly once, and nothing else. */
  predicate IsPermutationOfIds(repos: seq<Repo>, ids: seq<IdArgument>) {
    AllText(ids) && Distinct(Texts(ids)) && multiset(Texts(ids)) == multiset(IdsOf(repos))
  }

  /** The last repo with the id: a later entry of the lookup table wins. */
  function ById(repos: seq<Repo>, id: string): Option<Repo> {
    if repos == [] then None
    else if repos[|repos| - 1].id == id then Some(repos[|repos| - 1])
    else ById(repos[..|repos| - 1], id)
  }

  /** The repos in the order the ids ask for. */
  function InOrder(repos: seq<Repo>, ids: seq<IdArgument>): seq<Repo>
    requires IsPermutationOfIds(repos, ids)
  {
    PermutationFinds(repos, ids);
    seq(|ids|, i requires 0 <= i < |ids| => ById(repos, ids[i].id).value)
  }

  lemma {:induction false} ByIdFinds(repos: seq<Repo>, id: string)
    ensures ById(repos, id).Some? <==> id in IdsOf(repos)
    ensures ById(repos, id).Some? ==> ById(repos, id).value in repos && ById(repos, id).value.id == id
  {
    if repos != [] {
      var init := repos[..|repos| - 1];
      assert IdsOf(repos) == IdsOf(init) + [repos[|repos| - 1].id];
      ByIdFinds(init, id);
    }
  }

  lemma PermutationFinds(repos: seq<Repo>, ids: seq<IdArgument>)
    requires IsPermutationOfIds(repos, ids)
    ensures forall i | 0 <= i < |ids| :: ById(repos, ids[i].id).Some?
  {
    forall i | 0 <= i < |ids|
      ensures ById(repos, ids[i].id).Some?
    {
      assert Texts(ids)[i] in multiset(Texts(ids));
      ByIdFinds(repos, ids[i].id);
    }
  }

  /** Pigeonhole: distinct elements of a list of the same length are all of that list. */
  lemma {:induction false} Pigeonhole<T>(xs: seq<T>, ys: seq<T>)
    requires Distinct(xs) && |xs| == |ys| && forall x | x in xs :: x in ys
    ensures multiset(xs) == multiset(ys)
  {
    if xs != [] {
      assert xs[0] in ys;
      var k :| 0 <= k < |ys| && ys[k] == xs[0];
      var rest := ys[..k] + ys[k + 1..];
      assert ys == ys[..k] + [ys[k]] + ys[k + 1..];
      forall i | 0 <= i < |xs[1..]|
        ensures xs[1..][i] in rest
      {
        var x := xs[i + 1];
        assert x in ys && x != xs[0];
        var j :| 0 <= j < |ys| && ys[j] == x;
        assert x in if j < k then ys[..k] else ys[k + 1..];
      }
      assert Distinct(xs[1..]) by {
        forall i, j | 0 <= i < j < |xs[1..]| ensures xs[1..][i] != xs[1..][j] {
          assert xs[i + 1] != xs[j + 1];
        }
      }
      Pigeonhole(xs[1..], rest);
      assert xs == [xs[0]] + xs[1..];
    }
  }

  /** `reorderRepos` up to the assignment: the new list, or nothing for a stale order. */
  method Reordered(repos: seq<Repo>, orderedIds: seq<IdArgument>) returns (next: Option<seq<Repo>>)
    ensures next.Some? <==> IsPermutationOfIds(repos, orderedIds)
    ensures next.Some? ==> next.value == InOrder(repos, orderedIds)
  {
    if |orderedIds| != |repos| {
      if AllText(orderedIds) {
        assert |multiset(Texts(orderedIds))| != |multiset(IdsOf(repos))|;
      }
      return None;
    }
    var seen: set<string> := {};
    for i := 0 to |orderedIds|
      invariant forall k | 0 <= k < i :: orderedIds[k].Text?
      invariant seen == set k | 0 <= k < i :: orderedIds[k].id
      invariant forall k, m | 0 <= k < m < i :: orderedIds[k].id != orderedIds[m].id
    {
      if orderedIds[i].NotText? {
        return None;
      }
      if orderedIds[i].id in seen {
        var k :| 0 <= k < i && orderedIds[k].id == orderedIds[i].id;
        if AllText(orderedIds) {
          assert Texts(orderedIds)[k] == Texts(orderedIds)[i];
        }
        return None;
      }
      seen := seen + {orderedIds[i].id};
    }
    var byId: map<string, Repo> := map[];
    for i := 0 to |repos|
      invariant forall id ::
        (id in byId <==> ById(repos[..i], id).Some?) && (id in byId ==> byId[id] == ById(repos[..i], id).value)
    {
      byId := byId[repos[i].id := repos[i]];
      assert repos[..i + 1][..i] == repos[..i];
    }
    assert repos[..|repos|] == repos;
    var list: seq<Repo> := [];
    for i := 0 to |orderedIds|
      invariant |list| == i
      invariant forall k | 0 <= k < i :: ById(repos, orderedIds[k].id) == Some(list[k])
    {
      if orderedIds[i].id !in byId {
        ByIdFinds(repos, orderedIds[i].id);
        assert Texts(orderedIds)[i] in multiset(Texts(orderedIds));
        return None;
      }
      list := list + [byId[orderedIds[i].id]];
    }
    forall x | x in Texts(orderedIds)
      ensures x in IdsOf(repos)
    {
      ByIdFinds(repos, x);
    }
    Pigeonhole(Texts(orderedIds), IdsOf(repos));
    next := Some(list);
    assert list == InOrder(repos, orderedIds);
  }

  /** A reorder conserves the repos: the same ones, each as often, in the requested order. */
  lemma ReorderConserves(repos: seq<Repo>, ids: seq<IdArgument>)
    requires IsPermutationOfIds(repos, ids)
    ensures IdsOf(InOrder(repos, ids)) == Texts(ids)
    ensures multiset(InOrder(repos, ids)) == multiset(repos)
  {
    var next := InOrder(repos, ids);
    forall i | 0 <= i < |ids| ensures next[i].id == ids[i].id && next[i] in repos {
      PermutationFinds(repos, ids);
      ByIdFinds(repos, ids[i].id);
    }
    assert IdsOf(next) == Texts(ids);
    assert |multiset(Texts(ids))| == |multiset(IdsOf(repos))|;
    assert Distinct(next) by {
      forall i, j | 0 <= i < j < |next| ensures next[i] != next[j] {
        assert Texts(ids)[i] != Texts(ids)[j];
      }
    }
    Pigeonhole(next, repos);
  }
}
