/**
  The dependency lookup of the DAG Dependency Explorer.

  A dependency map is the uploaded JSON object: each key is a DAG name and its
  value is the list of that DAG's direct child DAGs. Python dicts keep the
  insertion order of their keys and the upstream query reports parents in that
  order, so the map is a sequence of `(parent, children)` entries rather than a
  Dafny `map`. A Python dict cannot hold the same key twice; `DistinctKeys`
  states that of the sequence.

  The queries are single-hop: the direct parents and the direct children of
  one DAG, and the set that joins both with the DAG itself.
*/
module DagDependencyExplorer {

  type DagName = string

  /** One `parent: [children...]` entry of the dependency JSON object. */
  type Entry = (DagName, seq<DagName>)

  /** The dependency JSON object, entries in the dict's insertion order. */
  type DependencyMap = seq<Entry>

  /** What one query returns: upstream list, downstream list, relevant set. */
  datatype CheckTasks = CheckTasks(upstream: seq<DagName>, downstream: seq<DagName>, relevant: set<DagName>)

  // ---------------------------------------------------------------------------
  // Sequences, keys and sets
  // ---------------------------------------------------------------------------

  predicate Distinct<T(==)>(s: seq<T>) {
    forall i, j :: 0 <= i < j < |s| ==> s[i] != s[j]
  }

  /** `a` is `b` with some elements left out, the rest in `b`'s order. */
  predicate IsSubsequence<T(==)>(a: seq<T>, b: seq<T>)
    decreases |b|
  {
    if a == [] then true
    else if b == [] then false
    else (a[0] == b[0] && IsSubsequence(a[1..], b[1..])) || IsSubsequence(a, b[1..])
  }

  /** The keys of the map, in insertion order (`dependency_map.keys()`). */
  function Keys(m: DependencyMap): seq<DagName> {
    seq(|m|, i requires 0 <= i < |m| => m[i].0)
  }

  /** Every key of a Python dict occurs once. */
  predicate DistinctKeys(m: DependencyMap) {
    forall i, j :: 0 <= i < j < |m| ==> m[i].0 != m[j].0
  }

  /** Python's `set(list)`. */
  function Elements(s: seq<DagName>): set<DagName> {
    set x | x in s
  }

  /** `p` is a key of `m` whose child list contains `child`. */
  predicate IsParentOf(p: DagName, child: DagName, m: DependencyMap) {
    exists i :: 0 <= i < |m| && m[i].0 == p && child in m[i].1
  }

  // ---------------------------------------------------------------------------
  // The three queries
  // ---------------------------------------------------------------------------

  /**
    `get_upstream_dags`: every key whose child list contains `name`, scanning
    the entries in insertion order. Exactly the parents of `name`, listed in
    key order, at most one per entry.
  */
  function Upstream(name: DagName, m: DependencyMap): (parents: seq<DagName>)
    ensures forall p :: p in parents <==> IsParentOf(p, name, m)
    ensures IsSubsequence(parents, Keys(m))
    ensures |parents| <= |m|
  {
    if m == [] then []
    else
      var rest := Upstream(name, m[1..]);
      assert Keys(m) == [m[0].0] + Keys(m[1..]);
      assert forall p :: IsParentOf(p, name, m) <==>
          (p == m[0].0 && name in m[0].1) || IsParentOf(p, name, m[1..]) by {
        forall p | IsParentOf(p, name, m) && !(p == m[0].0 && name in m[0].1)
          ensures IsParentOf(p, name, m[1..])
        {
          var i :| 0 <= i < |m| && m[i].0 == p && name in m[i].1;
          assert m[1..][i - 1] == m[i];
        }
        forall p | IsParentOf(p, name, m[1..]) ensures IsParentOf(p, name, m) {
          var i :| 0 <= i < |m[1..]| && m[1..][i].0 == p && name in m[1..][i].1;
          assert m[i + 1] == m[1..][i];
        }
      }
      if name in m[0].1 then [m[0].0] + rest else rest
  }

  /**
    `get_downstream_dags` (`dependency_map.get(dag_name, [])`): the child list
    stored under `name`, exactly as stored, repeated entries included; the
    empty list when `name` is not a key.
  */
  function Downstream(name: DagName, m: DependencyMap): (children: seq<DagName>)
    requires DistinctKeys(m)
    ensures forall i :: 0 <= i < |m| && m[i].0 == name ==> children == m[i].1
    ensures name !in Keys(m) ==> children == []
  {
    if m == [] then []
    else if m[0].0 == name then
      assert Keys(m)[0] == name;
      m[0].1
    else
      assert Keys(m) == [m[0].0] + Keys(m[1..]);
      Downstream(name, m[1..])
  }

  /**
    `generate_check_tasks`: an empty name is rejected with three empty results
    (the error message the source shows is not modelled); otherwise the
    upstream list, the downstream list, and every DAG in either or the name.
  */
  function GenerateCheckTasks(name: DagName, m: DependencyMap): (t: CheckTasks)
    requires DistinctKeys(m)
    ensures name == "" ==> t == CheckTasks([], [], {})
    ensures name != "" ==> t.upstream == Upstream(name, m) && t.downstream == Downstream(name, m)
    ensures name != "" ==> t.relevant == Elements(t.upstream) + {name} + Elements(t.downstream)
  {
    if name == "" then CheckTasks([], [], {})
    else
      var up := Upstream(name, m);
      var down := Downstream(name, m);
      CheckTasks(up, down, Elements(up + [name] + down))
  }

  // ---------------------------------------------------------------------------
  // Properties of the queries
  // ---------------------------------------------------------------------------

  /** A subsequence keeps only elements of the whole, and keeps them distinct. */
  lemma {:induction false} SubsequenceOfDistinct<T>(a: seq<T>, b: seq<T>)
    requires IsSubsequence(a, b)
    ensures forall x :: x in a ==> x in b
    ensures Distinct(b) ==> Distinct(a)
    decreases |b|
  {
    if a == [] {
    } else if a[0] == b[0] && IsSubsequence(a[1..], b[1..]) {
      SubsequenceOfDistinct(a[1..], b[1..]);
      assert a == [a[0]] + a[1..];
      assert b == [b[0]] + b[1..];
      if Distinct(b) {
        forall k | 0 <= k < |b[1..]| ensures b[1..][k] != b[0] {
          assert b[1..][k] == b[k + 1];
        }
        forall i, j | 0 <= i < j < |a| ensures a[i] != a[j] {
          if i == 0 {
            assert a[j] == a[1..][j - 1] && a[1..][j - 1] in a[1..];
            assert a[j] in b[1..];
          } else {
            assert a[i] == a[1..][i - 1] && a[j] == a[1..][j - 1];
          }
        }
      }
    } else {
      SubsequenceOfDistinct(a, b[1..]);
      if Distinct(b) {
        assert Distinct(b[1..]) by {
          forall i, j | 0 <= i < j < |b[1..]| ensures b[1..][i] != b[1..][j] {
            assert b[1..][i] == b[i + 1] && b[1..][j] == b[j + 1];
          }
        }
      }
    }
  }

  /** Each key is visited once, so no parent is listed twice. */
  lemma UpstreamDistinct(name: DagName, m: DependencyMap)
    requires DistinctKeys(m)
    ensures Distinct(Upstream(name, m))
    ensures |Upstream(name, m)| <= |Elements(Keys(m))|
  {
    var up := Upstream(name, m);
    SubsequenceOfDistinct(up, Keys(m));
    assert Elements(up) <= Elements(Keys(m));
    DistinctCardinality(up);
    SubsetCardinality(Elements(up), Elements(Keys(m)));
  }

  /** A list without repeats has as many distinct elements as entries. */
  lemma {:induction false} DistinctCardinality(s: seq<DagName>)
    requires Distinct(s)
    ensures |Elements(s)| == |s|
  {
    if s != [] {
      assert Distinct(s[1..]) by {
        forall i, j | 0 <= i < j < |s[1..]| ensures s[1..][i] != s[1..][j] {
          assert s[1..][i] == s[i + 1] && s[1..][j] == s[j + 1];
        }
      }
      DistinctCardinality(s[1..]);
      forall k | 0 <= k < |s[1..]| ensures s[1..][k] != s[0] {
        assert s[1..][k] == s[k + 1];
      }
      assert s == [s[0]] + s[1..];
      assert Elements(s) == {s[0]} + Elements(s[1..]);
    }
  }

  /** A list never has more distinct elements than entries. */
  lemma {:induction false} ElementsCardinality(s: seq<DagName>)
    ensures |Elements(s)| <= |s|
  {
    if s != [] {
      ElementsCardinality(s[1..]);
      assert s == [s[0]] + s[1..];
      assert Elements(s) == {s[0]} + Elements(s[1..]);
    }
  }

  lemma SubsetCardinality(a: set<DagName>, b: set<DagName>)
    requires a <= b
    ensures |a| <= |b|
  {
    assert b == a + (b - a);
  }

  /**
    The upstream list is the only list that holds exactly the parents of
    `name` and lists them in key order: the two properties in the contract of
    `Upstream` pin the list down.
  */
  lemma {:induction false} UpstreamIsUnique(name: DagName, m: DependencyMap, r: seq<DagName>)
    requires DistinctKeys(m)
    requires IsSubsequence(r, Keys(m))
    requires forall p :: p in r <==> IsParentOf(p, name, m)
    ensures r == Upstream(name, m)
    decreases |m|
  {
    if m == [] {
      assert r == [];
    } else {
      var k0, tail := m[0].0, m[1..];
      assert Keys(m) == [k0] + Keys(tail);
      assert DistinctKeys(tail) by {
        forall i, j | 0 <= i < j < |tail| ensures tail[i].0 != tail[j].0 {
          assert tail[i] == m[i + 1] && tail[j] == m[j + 1];
        }
      }
      forall k | 0 <= k < |Keys(tail)| ensures Keys(tail)[k] != k0 {
        assert Keys(tail)[k] == m[k + 1].0;
      }
      SubsequenceOfDistinct(r, Keys(m));
      // A parent other than the first key is a parent in the rest of the map.
      forall p | p != k0 && IsParentOf(p, name, m) ensures IsParentOf(p, name, tail) {
        var i :| 0 <= i < |m| && m[i].0 == p && name in m[i].1;
        assert tail[i - 1] == m[i];
      }
      forall p | IsParentOf(p, name, tail) ensures IsParentOf(p, name, m) && p != k0 {
        var i :| 0 <= i < |tail| && tail[i].0 == p && name in tail[i].1;
        assert m[i + 1] == tail[i];
        assert Keys(tail)[i] == p;
      }
      if name in m[0].1 {
        assert IsParentOf(k0, name, m);
        assert r != [] && r[0] == k0 && IsSubsequence(r[1..], Keys(tail)) by {
          if !(r[0] == k0 && IsSubsequence(r[1..], Keys(tail))) {
            assert IsSubsequence(r, Keys(tail));
            SubsequenceOfDistinct(r, Keys(tail));
          }
        }
        assert r == [k0] + r[1..];
        forall p ensures p in r[1..] <==> IsParentOf(p, name, tail) {
          if p in r[1..] {
            var k :| 0 <= k < |r[1..]| && r[1..][k] == p;
            assert r[k + 1] == p && r[0] != r[k + 1];
          }
          if p in r && p != k0 {
            var k :| 0 <= k < |r| && r[k] == p;
            assert r[1..][k - 1] == p;
          }
        }
        UpstreamIsUnique(name, tail, r[1..]);
      } else {
        forall i | 0 < i < |m| ensures m[i].0 != k0 {
        }
        assert IsSubsequence(r, Keys(tail)) by {
          if r != [] {
            assert r[0] in r;
            assert r[0] != k0;
          }
        }
        UpstreamIsUnique(name, tail, r);
      }
    }
  }

  /**
    Parents and children agree: `p` lists `c` as a child exactly when `c` lists
    `p` as a parent.
  */
  lemma UpstreamDownstreamDuality(p: DagName, c: DagName, m: DependencyMap)
    requires DistinctKeys(m)
    ensures p in Upstream(c, m) <==> p in Keys(m) && c in Downstream(p, m)
  {
    if p in Upstream(c, m) {
      var i :| 0 <= i < |m| && m[i].0 == p && c in m[i].1;
      assert Keys(m)[i] == p;
    }
    if p in Keys(m) && c in Downstream(p, m) {
      var i :| 0 <= i < |Keys(m)| && Keys(m)[i] == p;
      assert m[i].0 == p && c in m[i].1;
    }
  }

  /**
    For a non-empty name the relevant set holds the name, its parents and its
    children, and nothing else.
  */
  lemma RelevantMembers(name: DagName, m: DependencyMap, d: DagName)
    requires DistinctKeys(m)
    requires name != ""
    ensures d in GenerateCheckTasks(name, m).relevant <==>
      d == name || IsParentOf(d, name, m) || (exists i :: 0 <= i < |m| && m[i].0 == name && d in m[i].1)
  {
  }

  /** The relevant set is never larger than the three lists joined. */
  lemma RelevantSize(name: DagName, m: DependencyMap)
    requires DistinctKeys(m)
    requires name != ""
    ensures var t := GenerateCheckTasks(name, m);
      |t.relevant| <= |t.upstream| + 1 + |t.downstream|
  {
    var t := GenerateCheckTasks(name, m);
    assert t.relevant == Elements(t.upstream + [name] + t.downstream);
    ElementsCardinality(t.upstream + [name] + t.downstream);
  }

  /**
    A DAG that is nobody's child has an empty upstream list. This follows from
    the membership clause of `Upstream`'s contract; the proof walks the entries
    instead, so that no step argues from an empty list having a first element.
  */
  lemma {:induction false} NoParentsNoUpstream(name: DagName, m: DependencyMap)
    requires forall i :: 0 <= i < |m| ==> name !in m[i].1
    ensures Upstream(name, m) == []
  {
    if m != [] {
      assert forall i :: 0 <= i < |m[1..]| ==> m[1..][i] == m[i + 1];
      NoParentsNoUpstream(name, m[1..]);
    }
  }

  /** A name that is neither a key nor anyone's child is relevant only to itself. */
  lemma IsolatedName(name: DagName, m: DependencyMap)
    requires DistinctKeys(m)
    requires name != ""
    requires name !in Keys(m)
    requires forall i :: 0 <= i < |m| ==> name !in m[i].1
    ensures GenerateCheckTasks(name, m) == CheckTasks([], [], {name})
  {
    NoParentsNoUpstream(name, m);
    assert Elements([] + [name] + []) == {name};
  }

  // ---------------------------------------------------------------------------
  // The built-in sample configuration
  // ---------------------------------------------------------------------------

  /** The dependency map used when no file is uploaded. */
  const SampleConfig: DependencyMap := [
    ("i0001_ivo_hdr_weekly", ["i0001_ivo_hdr_daily", "i0001_ivo_hdr_daily"]),
    ("i0002_ivo_dtl_weekly", ["i0002_ivo_dtl_daily"]),
    ("i1146_pnr_gfc_daily", ["i1147_gfc_tns"]),
    ("i1146_pnr_gfc_weekly", ["i1147_gfc_tns"]),
    ("i1148_lws_gfc_weekly", ["i1147_gfc_tns", "i1148_lws_gfc_daily"]),
    ("i1147_gfc_tns_weekly", ["i1148_lws_gfc_weekly"]),
    ("i1607_i1769_recycle_daily_dag", ["i1607_i1769_inc_daily_dag"]),
    ("i1608_pra_not_rvu_ivo_tnd_mf_daily", ["i0675_acu_bus_crd_ivo_daily_dag"]),
    ("i1608_pra_not_rvu_ivo_tnd_talend", ["i1608_pra_not_rvu_ivo_tnd_mf_daily", "i1608_pra_not_rvu_ivo_tnd_weekly"])
  ]

  lemma SampleHasDistinctKeys()
    ensures DistinctKeys(SampleConfig)
  {
  }

  /** The three parents of `i1147_gfc_tns`, in the sample's key order. */
  lemma SampleUpstream()
    ensures Upstream("i1147_gfc_tns", SampleConfig) ==
      ["i1146_pnr_gfc_daily", "i1146_pnr_gfc_weekly", "i1148_lws_gfc_weekly"]
  {
    var name, s := "i1147_gfc_tns", SampleConfig;
    assert Upstream(name, s[9..]) == [];
    assert Upstream(name, s[8..]) == [];
    assert Upstream(name, s[7..]) == [];
    assert Upstream(name, s[6..]) == [];
    assert Upstream(name, s[5..]) == [];
    assert Upstream(name, s[4..]) == ["i1148_lws_gfc_weekly"];
    assert Upstream(name, s[3..]) == ["i1146_pnr_gfc_weekly", "i1148_lws_gfc_weekly"];
    assert Upstream(name, s[2..]) == ["i1146_pnr_gfc_daily", "i1146_pnr_gfc_weekly", "i1148_lws_gfc_weekly"];
    assert Upstream(name, s[1..]) == Upstream(name, s[2..]);
    assert s == s[0..];
  }

  /** The duplicated child of `i0001_ivo_hdr_weekly` is reported twice. */
  lemma SampleDownstreamKeepsDuplicates()
    ensures DistinctKeys(SampleConfig) &&
      Downstream("i0001_ivo_hdr_weekly", SampleConfig) == ["i0001_ivo_hdr_daily", "i0001_ivo_hdr_daily"]
  {
  }

  /**
    Querying `i1147_gfc_tns`, which is not a key of the sample: three parents,
    no children, and the relevant set is the parents and the name.
  */
  lemma SampleCheckTasks()
    ensures DistinctKeys(SampleConfig) &&
      GenerateCheckTasks("i1147_gfc_tns", SampleConfig) == CheckTasks(
        ["i1146_pnr_gfc_daily", "i1146_pnr_gfc_weekly", "i1148_lws_gfc_weekly"],
        [],
        {"i1146_pnr_gfc_daily", "i1146_pnr_gfc_weekly", "i1148_lws_gfc_weekly", "i1147_gfc_tns"})
  {
    SampleHasDistinctKeys();
    SampleUpstream();
    SampleNotAKey();
    var name := "i1147_gfc_tns";
    assert Downstream(name, SampleConfig) == [];
    SampleRelevant();
  }

  /** Python's `set(...)` of the sample query's three lists joined. */
  lemma SampleRelevant()
    ensures Elements(["i1146_pnr_gfc_daily", "i1146_pnr_gfc_weekly", "i1148_lws_gfc_weekly"] + ["i1147_gfc_tns"] + []) ==
      {"i1146_pnr_gfc_daily", "i1146_pnr_gfc_weekly", "i1148_lws_gfc_weekly", "i1147_gfc_tns"}
  {
  }

  /** `i1147_gfc_tns` is only ever a child in the sample. */
  lemma SampleNotAKey()
    ensures "i1147_gfc_tns" !in Keys(SampleConfig)
  {
  }
}
