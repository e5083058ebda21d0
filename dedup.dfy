/** The "first match wins" de-duplication shared by the four point pipelines of the map
    (temples and artefacts, churches, forts, mithraea). Features are taken in input order; each
    joins the first existing cluster whose representative matches its key, or else opens a new
    cluster represented by its own key. The match rule is a parameter: equal longitude for two
    pipelines, a distance below a threshold for the other two. */
module Dedup {

  /** An aggregated point: the representative key and the descriptors merged into it. */
  datatype Cluster<K, I> = Cluster(rep: K, items: seq<I>)

  /** A feature that passed its pipeline's filter: its coordinate key and its descriptor. */
  datatype Candidate<K, I> = Candidate(key: K, item: I)

  ghost predicate Reflexive<K(!new)>(matches: (K, K) -> bool) {
    forall k :: matches(k, k)
  }

  function RepsOf<K, I>(cs: seq<Cluster<K, I>>): (reps: seq<K>)
    ensures |reps| == |cs|
    ensures forall i :: 0 <= i < |cs| ==> reps[i] == cs[i].rep
  {
    seq(|cs|, i requires 0 <= i < |cs| => cs[i].rep)
  }

  /** `find` over the representatives: the index of the first one that matches `key`, or |reps|
      when none does. */
  function FirstMatch<K>(reps: seq<K>, key: K, matches: (K, K) -> bool): (k: nat)
    ensures k <= |reps|
    ensures k < |reps| ==> matches(reps[k], key)
    ensures forall j :: 0 <= j < k ==> !matches(reps[j], key)
  {
    if |reps| == 0 then 0
    else if matches(reps[0], key) then 0
    else 1 + FirstMatch(reps[1..], key, matches)
  }

  /** The three ensures of FirstMatch determine its value. */
  lemma FirstMatchUnique<K>(reps: seq<K>, key: K, matches: (K, K) -> bool, k: nat)
    requires k <= |reps|
    requires k < |reps| ==> matches(reps[k], key)
    requires forall j :: 0 <= j < k ==> !matches(reps[j], key)
    ensures FirstMatch(reps, key, matches) == k
  {
  }

  /** One turn of the loop: push the descriptor onto the first matching cluster, or push a new
      cluster whose representative is the candidate's own key. */
  function Absorb<K, I>(cs: seq<Cluster<K, I>>, x: Candidate<K, I>, matches: (K, K) -> bool): seq<Cluster<K, I>>
  {
    var k := FirstMatch(RepsOf(cs), x.key, matches);
    if k < |cs| then cs[k := Cluster(cs[k].rep, cs[k].items + [x.item])]
    else cs + [Cluster(x.key, [x.item])]
  }

  /** The clusters after the loop has run over `xs`, starting from `cs`. */
  function DedupFrom<K, I>(cs: seq<Cluster<K, I>>, xs: seq<Candidate<K, I>>, matches: (K, K) -> bool): seq<Cluster<K, I>>
    decreases |xs|
  {
    if xs == [] then cs else DedupFrom(Absorb(cs, xs[0], matches), xs[1..], matches)
  }

  /** The de-duplication loop itself (`xs.map(x => { const isThere = clusters.find(...); ... })`). */
  method Deduplicate<K, I>(start: seq<Cluster<K, I>>, xs: seq<Candidate<K, I>>, matches: (K, K) -> bool)
    returns (clusters: seq<Cluster<K, I>>)
    ensures clusters == DedupFrom(start, xs, matches)
  {
    clusters := start;
    var i := 0;
    while i < |xs|
      invariant 0 <= i <= |xs|
      invariant DedupFrom(clusters, xs[i..], matches) == DedupFrom(start, xs, matches)
    {
      var x := xs[i];
      var k := FirstMatch(RepsOf(clusters), x.key, matches);
      if k < |clusters| {
        clusters := clusters[k := clusters[k].(items := clusters[k].items + [x.item])];
      } else {
        clusters := clusters + [Cluster(x.key, [x.item])];
      }
      assert xs[i..][1..] == xs[i + 1..];
      i := i + 1;
    }
  }

  /** Running the loop over `xs + ys` is running it over `xs` and then over `ys`. */
  lemma {:induction false} DedupConcat<K, I>(cs: seq<Cluster<K, I>>, xs: seq<Candidate<K, I>>, ys: seq<Candidate<K, I>>, matches: (K, K) -> bool)
    ensures DedupFrom(cs, xs + ys, matches) == DedupFrom(DedupFrom(cs, xs, matches), ys, matches)
    decreases |xs|
  {
    if xs != [] {
      assert (xs + ys)[0] == xs[0];
      assert (xs + ys)[1..] == xs[1..] + ys;
      DedupConcat(Absorb(cs, xs[0], matches), xs[1..], ys, matches);
    } else {
      assert xs + ys == ys;
    }
  }

  lemma DedupSnoc<K, I>(cs: seq<Cluster<K, I>>, xs: seq<Candidate<K, I>>, x: Candidate<K, I>, matches: (K, K) -> bool)
    ensures DedupFrom(cs, xs + [x], matches) == Absorb(DedupFrom(cs, xs, matches), x, matches)
  {
    DedupConcat(cs, xs, [x], matches);
    assert [x][1..] == [];
  }

  // ---------------------------------------------------------------------------------------------
  // Item count

  /** Number of descriptors over all clusters. */
  function TotalItems<K, I>(cs: seq<Cluster<K, I>>): nat
  {
    if cs == [] then 0 else TotalItems(cs[..|cs| - 1]) + |cs[|cs| - 1].items|
  }

  lemma {:induction false} TotalItemsUpdate<K, I>(cs: seq<Cluster<K, I>>, k: nat, c: Cluster<K, I>)
    requires k < |cs|
    ensures TotalItems(cs[k := c]) + |cs[k].items| == TotalItems(cs) + |c.items|
    decreases |cs|
  {
    var n := |cs| - 1;
    if k < n {
      assert cs[k := c][..n] == cs[..n][k := c];
      TotalItemsUpdate(cs[..n], k, c);
    } else {
      assert cs[k := c][..n] == cs[..n];
    }
  }

  lemma TotalItemsAbsorb<K, I>(cs: seq<Cluster<K, I>>, x: Candidate<K, I>, matches: (K, K) -> bool)
    ensures TotalItems(Absorb(cs, x, matches)) == TotalItems(cs) + 1
  {
    var k := FirstMatch(RepsOf(cs), x.key, matches);
    if k < |cs| {
      TotalItemsUpdate(cs, k, Cluster(cs[k].rep, cs[k].items + [x.item]));
    } else {
      assert (cs + [Cluster(x.key, [x.item])])[..|cs|] == cs;
    }
  }

  /** No descriptor is lost or duplicated: every candidate adds exactly one descriptor. */
  lemma {:induction false} DedupCount<K, I>(cs: seq<Cluster<K, I>>, xs: seq<Candidate<K, I>>, matches: (K, K) -> bool)
    ensures TotalItems(DedupFrom(cs, xs, matches)) == TotalItems(cs) + |xs|
    decreases |xs|
  {
    if xs != [] {
      TotalItemsAbsorb(cs, xs[0], matches);
      DedupCount(Absorb(cs, xs[0], matches), xs[1..], matches);
    }
  }

  /** Every cluster holds at least one descriptor, so a later average over its items is defined. */
  lemma {:induction false} DedupNonEmpty<K, I>(cs: seq<Cluster<K, I>>, xs: seq<Candidate<K, I>>, matches: (K, K) -> bool)
    requires forall i :: 0 <= i < |cs| ==> |cs[i].items| > 0
    ensures forall i :: 0 <= i < |DedupFrom(cs, xs, matches)| ==> |DedupFrom(cs, xs, matches)[i].items| > 0
    decreases |xs|
  {
    if xs != [] {
      DedupNonEmpty(Absorb(cs, xs[0], matches), xs[1..], matches);
    }
  }

  /** No representative matches an earlier one. */
  ghost predicate Apart<K, I>(cs: seq<Cluster<K, I>>, matches: (K, K) -> bool) {
    forall i, j :: 0 <= i < j < |cs| ==> !matches(cs[i].rep, cs[j].rep)
  }

  /** The loop never changes a representative and opens a cluster only for a key no existing
      representative matches, so representatives stay apart. */
  lemma {:induction false} DedupKeepsApart<K, I>(cs: seq<Cluster<K, I>>, xs: seq<Candidate<K, I>>, matches: (K, K) -> bool)
    requires Apart(cs, matches)
    ensures Apart(DedupFrom(cs, xs, matches), matches)
    decreases |xs|
  {
    if xs != [] {
      var after := Absorb(cs, xs[0], matches);
      var k := FirstMatch(RepsOf(cs), xs[0].key, matches);
      assert forall i :: 0 <= i < |cs| ==> after[i].rep == cs[i].rep;
      DedupKeepsApart(after, xs[1..], matches);
    }
  }

  // ---------------------------------------------------------------------------------------------
  // An independent description of the result, for loops that start from no clusters

  /** The representatives: the keys of the candidates that matched no earlier representative. */
  function Reps<K, I>(xs: seq<Candidate<K, I>>, matches: (K, K) -> bool): seq<K>
    decreases |xs|
  {
    if xs == [] then []
    else
      var r := Reps(xs[..|xs| - 1], matches);
      var x := xs[|xs| - 1];
      if FirstMatch(r, x.key, matches) < |r| then r else r + [x.key]
  }

  /** The descriptors, in input order, of the candidates whose first matching representative is
      the `c`-th one. */
  function ItemsAt<K, I>(xs: seq<Candidate<K, I>>, reps: seq<K>, c: nat, matches: (K, K) -> bool): seq<I>
    decreases |xs|
  {
    if xs == [] then []
    else
      var x := xs[|xs| - 1];
      ItemsAt(xs[..|xs| - 1], reps, c, matches) + (if FirstMatch(reps, x.key, matches) == c then [x.item] else [])
  }

  /** The clusters as the reference description gives them. */
  function Reference<K, I>(xs: seq<Candidate<K, I>>, matches: (K, K) -> bool): seq<Cluster<K, I>>
  {
    var reps := Reps(xs, matches);
    seq(|reps|, c requires 0 <= c < |reps| => Cluster(reps[c], ItemsAt(xs, reps, c, matches)))
  }

  lemma FirstMatchPrefix<K>(reps: seq<K>, more: seq<K>, key: K, matches: (K, K) -> bool)
    requires FirstMatch(reps, key, matches) < |reps|
    ensures FirstMatch(reps + more, key, matches) == FirstMatch(reps, key, matches)
  {
    var k := FirstMatch(reps, key, matches);
    FirstMatchUnique(reps + more, key, matches, k);
  }

  /** With a reflexive match rule, every candidate finds a representative among Reps. */
  lemma {:induction false} AllPlaced<K(!new), I>(xs: seq<Candidate<K, I>>, matches: (K, K) -> bool)
    requires Reflexive(matches)
    ensures forall j :: 0 <= j < |xs| ==> FirstMatch(Reps(xs, matches), xs[j].key, matches) < |Reps(xs, matches)|
    decreases |xs|
  {
    if xs != [] {
      var n := |xs| - 1;
      var pre, x := xs[..n], xs[n];
      var r := Reps(pre, matches);
      AllPlaced(pre, matches);
      if FirstMatch(r, x.key, matches) == |r| {
        forall j | 0 <= j < |xs|
          ensures FirstMatch(r + [x.key], xs[j].key, matches) < |r| + 1
        {
          if j < n {
            assert xs[j] == pre[j];
            FirstMatchPrefix(r, [x.key], xs[j].key, matches);
          } else {
            assert matches(x.key, x.key);
            FirstMatchUnique(r + [x.key], x.key, matches, |r|);
          }
        }
      } else {
        forall j | 0 <= j < |xs|
          ensures FirstMatch(r, xs[j].key, matches) < |r|
        {
          if j < n { assert xs[j] == pre[j]; }
        }
      }
    }
  }

  /** Adding representatives after every candidate has been placed changes no cluster's items. */
  lemma {:induction false} ItemsAtStable<K, I>(xs: seq<Candidate<K, I>>, reps: seq<K>, more: seq<K>, c: nat, matches: (K, K) -> bool)
    requires forall j :: 0 <= j < |xs| ==> FirstMatch(reps, xs[j].key, matches) < |reps|
    ensures ItemsAt(xs, reps + more, c, matches) == ItemsAt(xs, reps, c, matches)
    ensures |reps| <= c ==> ItemsAt(xs, reps, c, matches) == []
    decreases |xs|
  {
    if xs != [] {
      var n := |xs| - 1;
      var pre := xs[..n];
      forall j | 0 <= j < n ensures FirstMatch(reps, pre[j].key, matches) < |reps| {
        assert pre[j] == xs[j];
      }
      ItemsAtStable(pre, reps, more, c, matches);
      FirstMatchPrefix(reps, more, xs[n].key, matches);
    }
  }

  /** The loop, started from no clusters, produces exactly the reference clusters: the
      representatives are the first-seen keys, and each cluster holds, in input order, the
      descriptors of the candidates whose first matching representative it is. */
  lemma {:induction false} DedupIsReference<K(!new), I>(xs: seq<Candidate<K, I>>, matches: (K, K) -> bool)
    requires Reflexive(matches)
    ensures DedupFrom([], xs, matches) == Reference(xs, matches)
    decreases |xs|
  {
    if xs != [] {
      var n := |xs| - 1;
      var pre, x := xs[..n], xs[n];
      assert xs == pre + [x];
      DedupIsReference(pre, matches);
      DedupSnoc([], pre, x, matches);
      var r := Reps(pre, matches);
      var cs := Reference(pre, matches);
      assert RepsOf(cs) == r;
      var k := FirstMatch(r, x.key, matches);
      AllPlaced(pre, matches);
      var after := Absorb(cs, x, matches);
      var want := Reference(xs, matches);
      assert xs[..n] == pre;
      if k < |r| {
        assert Reps(xs, matches) == r;
        assert |after| == |want|;
        forall c | 0 <= c < |want| ensures after[c] == want[c] {
          assert ItemsAt(xs, r, c, matches) == ItemsAt(pre, r, c, matches) + (if k == c then [x.item] else []);
        }
      } else {
        var r' := r + [x.key];
        assert Reps(xs, matches) == r';
        assert |after| == |want|;
        forall c | 0 <= c < |want| ensures after[c] == want[c] {
          ItemsAtStable(pre, r, [x.key], c, matches);
          assert matches(x.key, x.key);
          FirstMatchUnique(r', x.key, matches, |r|);
          assert ItemsAt(xs, r', c, matches) == ItemsAt(pre, r', c, matches) + (if |r| == c then [x.item] else []);
        }
      }
    }
  }

  /** No representative matches an earlier one: for the longitude rule no two clusters share a
      longitude, for the distance rule representatives lie at least the threshold apart. */
  lemma {:induction false} RepsApart<K, I>(xs: seq<Candidate<K, I>>, matches: (K, K) -> bool)
    ensures forall i, j :: 0 <= i < j < |Reps(xs, matches)| ==> !matches(Reps(xs, matches)[i], Reps(xs, matches)[j])
    decreases |xs|
  {
    if xs != [] {
      RepsApart(xs[..|xs| - 1], matches);
    }
  }

  /** Each representative is the key of the first candidate that landed in its cluster. */
  lemma {:induction false} RepIsFirstSeen<K(!new), I>(xs: seq<Candidate<K, I>>, matches: (K, K) -> bool, c: nat)
    requires Reflexive(matches)
    requires c < |Reps(xs, matches)|
    ensures exists j :: (0 <= j < |xs| && xs[j].key == Reps(xs, matches)[c]
                         && FirstMatch(Reps(xs, matches), xs[j].key, matches) == c
                         && forall j' :: 0 <= j' < j ==> FirstMatch(Reps(xs, matches), xs[j'].key, matches) != c)
    decreases |xs|
  {
    var n := |xs| - 1;
    var pre, x := xs[..n], xs[n];
    var r := Reps(pre, matches);
    var R := Reps(xs, matches);
    AllPlaced(pre, matches);
    if c < |r| {
      RepIsFirstSeen(pre, matches, c);
      var j :| 0 <= j < |pre| && pre[j].key == r[c] && FirstMatch(r, pre[j].key, matches) == c
        && (forall j' :: 0 <= j' < j ==> FirstMatch(r, pre[j'].key, matches) != c);
      assert R == r || R == r + [x.key];
      FirstMatchPrefix(r, R[|r|..], pre[j].key, matches);
      assert r + R[|r|..] == R;
      forall j' | 0 <= j' < j ensures FirstMatch(R, xs[j'].key, matches) != c {
        assert xs[j'] == pre[j'];
        FirstMatchPrefix(r, R[|r|..], pre[j'].key, matches);
      }
      assert xs[j] == pre[j];
    } else {
      assert R == r + [x.key] && c == |r|;
      assert matches(x.key, x.key);
      FirstMatchUnique(R, x.key, matches, |r|);
      forall j' | 0 <= j' < n ensures FirstMatch(R, xs[j'].key, matches) != c {
        assert xs[j'] == pre[j'];
        FirstMatchPrefix(r, [x.key], pre[j'].key, matches);
      }
    }
  }

  /** The descriptors of a concatenated input are those of each part, the first part's first. */
  lemma {:induction false} ItemsAtConcat<K, I>(xs: seq<Candidate<K, I>>, ys: seq<Candidate<K, I>>, reps: seq<K>, c: nat, matches: (K, K) -> bool)
    ensures ItemsAt(xs + ys, reps, c, matches) == ItemsAt(xs, reps, c, matches) + ItemsAt(ys, reps, c, matches)
    decreases |ys|
  {
    if ys == [] {
      assert xs + ys == xs;
    } else {
      var m := |ys| - 1;
      assert (xs + ys)[..|xs + ys| - 1] == xs + ys[..m];
      assert (xs + ys)[|xs + ys| - 1] == ys[m];
      ItemsAtConcat(xs, ys[..m], reps, c, matches);
    }
  }

  /** Every descriptor in a cluster comes from some input candidate. */
  lemma {:induction false} ItemsAtFromInput<K, I>(xs: seq<Candidate<K, I>>, reps: seq<K>, c: nat, matches: (K, K) -> bool, ok: I -> bool)
    requires forall j :: 0 <= j < |xs| ==> ok(xs[j].item)
    ensures forall t :: 0 <= t < |ItemsAt(xs, reps, c, matches)| ==> ok(ItemsAt(xs, reps, c, matches)[t])
    decreases |xs|
  {
    if xs != [] {
      var n := |xs| - 1;
      forall j | 0 <= j < n ensures ok(xs[..n][j].item) {
        assert xs[..n][j] == xs[j];
      }
      ItemsAtFromInput(xs[..n], reps, c, matches, ok);
    }
  }
}
