/**
 * The human summary of a detection run: class ids are mapped to their names
 * (no fallback: an id the mapping lacks is a KeyError), the names are counted
 * with a `Counter`, and each distinct name becomes a line "name: count".  A
 * `Counter` is a Python dict, which keeps keys in the order they were first
 * inserted, so the lines come in first-seen order.
 */
module Summary {

  import opened Format

  /** One item of a counter: a name and how often it was added. */
  datatype Entry = Entry(name: string, count: nat)

  /** An insertion-ordered counter, as the sequence of its items. */
  type Counter = seq<Entry>

  /** No name is listed twice. */
  predicate Distinct(c: Counter) {
    forall i, j :: 0 <= i < j < |c| ==> c[i].name != c[j].name
  }

  /** The position of name k in the counter, or -1 when it is not there. */
  function IndexOf(c: Counter, k: string): (r: int)
    ensures -1 <= r < |c|
    ensures r >= 0 ==> c[r].name == k
    ensures r < 0 ==> forall i :: 0 <= i < |c| ==> c[i].name != k
  {
    if c == [] then -1
    else if c[|c| - 1].name == k then |c| - 1
    else IndexOf(c[..|c| - 1], k)
  }

  /** The position of the first occurrence of x in s. */
  function FirstIndex(s: seq<string>, x: string): (i: nat)
    requires x in s
    ensures i < |s| && s[i] == x
    ensures forall j :: 0 <= j < i ==> s[j] != x
  {
    if s[0] == x then 0 else 1 + FirstIndex(s[1..], x)
  }

  /** `[names[int(c)] for c in cls_ids]` */
  function Labels(clsIds: seq<int>, names: map<int, string>): (labels: seq<string>)
    requires forall i :: 0 <= i < |clsIds| ==> clsIds[i] in names
    ensures |labels| == |clsIds|
    ensures forall i :: 0 <= i < |clsIds| ==> labels[i] == names[clsIds[i]]
  {
    seq(|clsIds|, i requires 0 <= i < |clsIds| => names[clsIds[i]])
  }

  /** `counter[k] += 1`: an existing name keeps its place, a new name goes last with count 1. */
  function Add(c: Counter, k: string): Counter
  {
    var i := IndexOf(c, k);
    if i >= 0 then c[i := Entry(k, c[i].count + 1)] else c + [Entry(k, 1)]
  }

  /** `Counter(labels)`: the labels added one at a time, left to right. */
  function Count(labels: seq<string>): Counter
  {
    if labels == [] then [] else Add(Count(labels[..|labels| - 1]), labels[|labels| - 1])
  }

  /** The counts added up. */
  function Total(c: Counter): nat
  {
    if c == [] then 0 else Total(c[..|c| - 1]) + c[|c| - 1].count
  }

  /**
   * What `counter[k] += 1` does to the items: a listed name gets one more and
   * nothing else changes; an unlisted name is appended with count 1.
   */
  lemma AddEffect(c: Counter, k: string)
    ensures var d := Add(c, k); var i := IndexOf(c, k);
            && (i >= 0 ==> |d| == |c| && d[i] == Entry(k, c[i].count + 1)
                           && forall j :: 0 <= j < |c| && j != i ==> d[j] == c[j])
            && (i < 0 ==> d == c + [Entry(k, 1)])
  {
  }

  /** A listed name is found. */
  lemma IndexOfListed(c: Counter, i: nat)
    requires i < |c|
    ensures IndexOf(c, c[i].name) >= 0
  {
  }

  /** The counter of any sequence lists each name at most once. */
  lemma {:induction false} CountDistinct(labels: seq<string>)
    ensures Distinct(Count(labels))
  {
    if labels != [] {
      var init := labels[..|labels| - 1];
      var k := labels[|labels| - 1];
      CountDistinct(init);
      AddEffect(Count(init), k);
    }
  }

  /** The listed names are exactly the labels that occur. */
  lemma {:induction false} CountCovers(labels: seq<string>)
    ensures forall i :: 0 <= i < |Count(labels)| ==> Count(labels)[i].name in labels
    ensures forall k :: k in labels ==> IndexOf(Count(labels), k) >= 0
  {
    if labels != [] {
      var init := labels[..|labels| - 1];
      var k := labels[|labels| - 1];
      assert labels == init + [k];
      CountCovers(init);
      var c := Count(init);
      var d := Count(labels);
      AddEffect(c, k);
      forall x | x in labels ensures IndexOf(d, x) >= 0 {
        if x == k {
          if IndexOf(c, k) >= 0 {
            IndexOfListed(d, IndexOf(c, k));
          } else {
            IndexOfListed(d, |c|);
          }
        } else {
          assert x in init;
          var i := IndexOf(c, x);
          assert d[i].name == x;
          IndexOfListed(d, i);
        }
      }
    }
  }

  /** Each name's count is its number of occurrences. */
  lemma {:induction false} CountOccurrences(labels: seq<string>)
    ensures forall i :: 0 <= i < |Count(labels)| ==>
              Count(labels)[i].count == multiset(labels)[Count(labels)[i].name]
  {
    if labels != [] {
      var init := labels[..|labels| - 1];
      var k := labels[|labels| - 1];
      assert labels == init + [k];
      var m := multiset(labels);
      assert m == multiset(init) + multiset{k};
      CountOccurrences(init);
      CountCovers(init);
      var c := Count(init);
      var d := Count(labels);
      AddEffect(c, k);
      if IndexOf(c, k) < 0 {
        assert k !in init;
      }
      CountDistinct(init);
      var idx := IndexOf(c, k);
      forall i | 0 <= i < |d| ensures d[i].count == m[d[i].name] {
        if idx >= 0 && i != idx {
          assert d[i] == c[i] && c[i].name != k;
        } else if idx < 0 && i < |c| {
          assert d[i] == c[i] && c[i].name != k;
        }
      }
    }
  }

  lemma FirstIndexSnoc(s: seq<string>, k: string, x: string)
    requires x in s
    ensures FirstIndex(s + [k], x) == FirstIndex(s, x)
  {
    assert (s + [k])[FirstIndex(s, x)] == x;
  }

  /** x occurs in s, and occurs first before y does. */
  predicate FirstSeenBefore(s: seq<string>, x: string, y: string) {
    x in s && y in s && FirstIndex(s, x) < FirstIndex(s, y)
  }

  /** Names are listed in the order of their first occurrence. */
  lemma {:induction false} CountFirstSeenOrder(labels: seq<string>)
    ensures forall i, j :: 0 <= i < j < |Count(labels)| ==>
              FirstSeenBefore(labels, Count(labels)[i].name, Count(labels)[j].name)
  {
    if labels != [] {
      var init := labels[..|labels| - 1];
      var k := labels[|labels| - 1];
      assert labels == init + [k];
      CountFirstSeenOrder(init);
      CountCovers(init);
      var c := Count(init);
      var d := Count(labels);
      AddEffect(c, k);
      forall i, j | 0 <= i < j < |d|
        ensures FirstSeenBefore(labels, d[i].name, d[j].name)
      {
        assert d[i].name == c[i].name;
        FirstIndexSnoc(init, k, c[i].name);
        if j < |c| {
          assert d[j].name == c[j].name;
          assert FirstSeenBefore(init, c[i].name, c[j].name);
          FirstIndexSnoc(init, k, c[j].name);
        } else {
          assert IndexOf(c, k) < 0 && d[j].name == k;
          assert k !in init;
          assert FirstIndex(labels, k) == |init|;
        }
      }
    }
  }

  /** Replacing one entry changes the total by the difference of the counts. */
  lemma {:induction false} TotalUpdate(c: Counter, i: nat, e: Entry)
    requires i < |c|
    ensures Total(c[i := e]) == Total(c) - c[i].count + e.count
  {
    var init := c[..|c| - 1];
    if i == |c| - 1 {
      assert c[i := e][..|c| - 1] == init;
    } else {
      TotalUpdate(init, i, e);
      assert c[i := e][..|c| - 1] == init[i := e];
    }
  }

  /** The counts add up to the number of labels. */
  lemma {:induction false} CountTotal(labels: seq<string>)
    ensures Total(Count(labels)) == |labels|
  {
    if labels != [] {
      var init := labels[..|labels| - 1];
      var k := labels[|labels| - 1];
      CountTotal(init);
      var c := Count(init);
      assert Count(labels) == Add(c, k);
      var i := IndexOf(c, k);
      if i >= 0 {
        TotalUpdate(c, i, Entry(k, c[i].count + 1));
      } else {
        assert (c + [Entry(k, 1)])[..|c|] == c;
      }
    }
  }

  /** A sequence of distinct labels has as many elements as it has distinct values. */
  lemma {:induction false} DistinctSize(c: Counter)
    requires Distinct(c)
    ensures |set i | 0 <= i < |c| :: c[i].name| == |c|
  {
    if c != [] {
      var init := c[..|c| - 1];
      DistinctSize(init);
      var last := c[|c| - 1].name;
      var s := set i | 0 <= i < |init| :: init[i].name;
      assert last !in s;
      assert (set i | 0 <= i < |c| :: c[i].name) == s + {last};
    }
  }

  /**
   * `summary = [f"{k}: {v}" for k, v in counts.items()]` with
   * `counts = Counter(labels)`: one line per counted name, in counter order,
   * giving the name and how often it occurs among the labels.
   */
  function SummaryLines(clsIds: seq<int>, names: map<int, string>): (lines: seq<string>)
    requires forall i :: 0 <= i < |clsIds| ==> clsIds[i] in names
    ensures var labels := Labels(clsIds, names); var c := Count(labels);
            |lines| == |c|
            && forall i :: 0 <= i < |c| ==>
                 lines[i] == c[i].name + ": " + NatToString(multiset(labels)[c[i].name])
  {
    var labels := Labels(clsIds, names);
    var c := Count(labels);
    CountOccurrences(labels);
    seq(|c|, i requires 0 <= i < |c| => c[i].name + ": " + NatToString(c[i].count))
  }

  /** The counter of a sequence has one item per distinct label. */
  lemma CountSize(labels: seq<string>)
    ensures |Count(labels)| == |set l | l in labels|
  {
    var c := Count(labels);
    CountDistinct(labels);
    CountCovers(labels);
    DistinctSize(c);
    var listed := set i | 0 <= i < |c| :: c[i].name;
    forall l | l in labels ensures l in listed {
      assert c[IndexOf(c, l)].name == l;
    }
    assert listed == set l | l in labels;
  }

  /**
   * The summary lists each distinct name exactly once with a count of at
   * least one; the counts add up to the number of detections; an empty run
   * has an empty summary.
   */
  lemma SummaryShape(clsIds: seq<int>, names: map<int, string>)
    requires forall i :: 0 <= i < |clsIds| ==> clsIds[i] in names
    ensures var labels := Labels(clsIds, names); var c := Count(labels);
            |SummaryLines(clsIds, names)| == |set l | l in labels|
            && (forall i :: 0 <= i < |c| ==> c[i].count >= 1)
            && Total(c) == |clsIds|
    ensures clsIds == [] ==> SummaryLines(clsIds, names) == []
  {
    var labels := Labels(clsIds, names);
    CountSize(labels);
    CountCovers(labels);
    CountOccurrences(labels);
    CountTotal(labels);
  }

  /** One person detected gives the single line "person: 1". */
  lemma SummaryOnePerson()
    ensures SummaryLines([0], map[0 := "person"]) == ["person: 1"]
  {
    assert Labels([0], map[0 := "person"]) == ["person"];
    assert ["person"][..0] == [];
    assert Count(["person"]) == Add([], "person") == [Entry("person", 1)];
    assert multiset(["person"])["person"] == 1;
    assert NatToString(1) == "1";
    var lines := SummaryLines([0], map[0 := "person"]);
    assert |lines| == 1 && lines[0] == "person" + ": " + "1";
    assert "person" + ": " + "1" == "person: 1";
    assert lines == [lines[0]];
  }

  /** A repeated name is counted once, in the position of its first occurrence. */
  lemma CountRepeatedName()
    ensures Count(["dog", "person", "dog"]) == [Entry("dog", 2), Entry("person", 1)]
  {
    var one := Count(["dog"]);
    assert ["dog"][..0] == [];
    assert one == [Entry("dog", 1)];
    var two := Count(["dog", "person"]);
    assert ["dog", "person"][..1] == ["dog"];
    assert IndexOf(one, "person") == -1;
    assert two == [Entry("dog", 1), Entry("person", 1)];
    assert ["dog", "person", "dog"][..2] == ["dog", "person"];
    assert IndexOf(two, "dog") == 0;
  }
}
