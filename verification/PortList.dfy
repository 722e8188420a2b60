/** Lists of allowed ports: printed as ranges, parsed back. */
module PortList {
  import opened Decimal

  const MAX_PORT := 65535

  // --- printing

  /** One stretch of consecutive ports. */
  datatype Stretch = Stretch(first: int, last: int)

  /** The stretches of an increasing list, as the loop finds them. */
  function Stretches(sorted: seq<int>): (r: seq<Stretch>)
    ensures r == [] <==> sorted == []
    ensures sorted != [] ==> r[|r| - 1].last == sorted[|sorted| - 1]
  {
    if sorted == [] then []
    else
      var port, r := sorted[|sorted| - 1], Stretches(sorted[..|sorted| - 1]);
      if r != [] && port == r[|r| - 1].last + 1 then r[..|r| - 1] + [Stretch(r[|r| - 1].first, port)]
      else r + [Stretch(port, port)]
  }

  function FormatInt(n: int): (s: string)
    ensures s != []
  {
    if n < 0 then "-" + FormatUint(-n) else FormatUint(n)
  }

  function Text(r: Stretch): (s: string)
    ensures s != []
  {
    if r.first == r.last then FormatInt(r.first) else FormatInt(r.first) + "-" + FormatInt(r.last)
  }

  function Join(rs: seq<Stretch>): string {
    if rs == [] then ""
    else if |rs| == 1 then Text(rs[0])
    else Join(rs[..|rs| - 1]) + "," + Text(rs[|rs| - 1])
  }

  predicate Increasing(s: seq<int>) { forall i, j :: 0 <= i < j < |s| ==> s[i] < s[j] }

  function Elements(s: seq<int>): set<int> { set x <- s }

  // --- what the stretches are

  predicate In(r: Stretch, p: int) { r.first <= p <= r.last }

  predicate InSome(rs: seq<Stretch>, p: int) { exists i :: 0 <= i < |rs| && In(rs[i], p) }

  /** Non-empty, in order, and with a gap between any two: no two could be one. */
  predicate Separated(rs: seq<Stretch>) {
    && (forall i :: 0 <= i < |rs| ==> rs[i].first <= rs[i].last)
    && (forall i, j :: 0 <= i < j < |rs| ==> rs[i].last + 1 < rs[j].first)
  }

  lemma InSnoc(rs: seq<Stretch>, r: Stretch, p: int)
    ensures InSome(rs + [r], p) <==> InSome(rs, p) || In(r, p)
  {
    var more := rs + [r];
    assert forall i :: 0 <= i < |rs| ==> more[i] == rs[i];
    assert more[|rs|] == r;
  }

  lemma SeparatedSnoc(rs: seq<Stretch>, r: Stretch)
    requires Separated(rs) && r.first <= r.last && (rs != [] ==> rs[|rs| - 1].last + 1 < r.first)
    ensures Separated(rs + [r])
  {
    forall i | 0 <= i < |rs| ensures rs[i].last + 1 < r.first {
      assert i < |rs| - 1 ==> rs[i].last + 1 < rs[|rs| - 1].first;
    }
  }

  lemma SeparatedInit(rs: seq<Stretch>)
    requires Separated(rs) && rs != []
    ensures Separated(rs[..|rs| - 1]) && rs == rs[..|rs| - 1] + [rs[|rs| - 1]]
    ensures var k := |rs| - 1; k > 0 ==> rs[..k][k - 1].last + 1 < rs[k].first <= rs[k].last
  {
  }

  /** The stretches of an increasing list are separated and cover exactly its members. */
  lemma {:induction false} StretchesCover(sorted: seq<int>)
    requires Increasing(sorted)
    ensures Separated(Stretches(sorted))
    ensures forall p :: InSome(Stretches(sorted), p) <==> p in sorted
  {
    if sorted != [] {
      var n := |sorted| - 1;
      var init, port, r := sorted[..n], sorted[n], Stretches(sorted[..n]);
      StretchesCover(init);
      assert sorted == init + [port];
      assert r != [] ==> r[|r| - 1].last == init[n - 1] < port;
      assert Stretches(sorted)
             == if r != [] && port == r[|r| - 1].last + 1 then r[..|r| - 1] + [Stretch(r[|r| - 1].first, port)]
                                  else r + [Stretch(port, port)];
      hide InSome, Separated, Increasing, Stretches;
      if r != [] && port == r[|r| - 1].last + 1 {
        Extends(r, port);
      } else {
        SeparatedSnoc(r, Stretch(port, port));
        forall p ensures InSome(r + [Stretch(port, port)], p) <==> p in sorted { InSnoc(r, Stretch(port, port), p); }
      }
    }
  }

  lemma Extends(r: seq<Stretch>, port: int)
    requires r != [] && Separated(r) && port == r[|r| - 1].last + 1
    ensures var k := |r| - 1; var longer := r[..k] + [Stretch(r[k].first, port)];
            Separated(longer) && forall p :: InSome(longer, p) <==> InSome(r, p) || p == port
  {
    var k := |r| - 1;
    var longer := Stretch(r[k].first, port);
    assert r[k].first <= r[k].last;
    SeparatedInit(r);
    hide InSome, Separated;
    SeparatedSnoc(r[..k], longer);
    forall p ensures InSome(r[..k] + [longer], p) <==> InSome(r, p) || p == port {
      InSnoc(r[..k], longer, p);
      InSnoc(r[..k], r[k], p);
    }
  }

  lemma NoNeighbour(rs: seq<Stretch>, i: nat, p: int)
    requires Separated(rs) && i < |rs| && (p == rs[i].first - 1 || p == rs[i].last + 1)
    ensures !InSome(rs, p)
  {
    forall j | 0 <= j < |rs| ensures !In(rs[j], p) {
      assert j < i ==> rs[j].last + 1 < rs[i].first;
      assert i < j ==> rs[i].last + 1 < rs[j].first;
      assert rs[i].first <= rs[i].last;
    }
  }

  /** So they are the maximal stretches: all of a stretch is in the list, and neither of its neighbours. */
  lemma StretchesAreMaximal(sorted: seq<int>, i: nat, p: int)
    requires Increasing(sorted) && i < |Stretches(sorted)|
    ensures var r := Stretches(sorted)[i];
            (In(r, p) ==> p in sorted) && r.first - 1 !in sorted && r.last + 1 !in sorted
  {
    StretchesCover(sorted);
    hide Stretches;
    var rs := Stretches(sorted);
    NoNeighbour(rs, i, rs[i].first - 1);
    NoNeighbour(rs, i, rs[i].last + 1);
    assert In(rs[i], p) ==> InSome(rs, p);
  }

  // --- the printer

  method Flush(text: string, r: Stretch) returns (out: string)
    ensures out == if text == "" then Text(r) else text + "," + Text(r)
  {
    out := text;
    if |out| > 0 { out := out + ","; }
    if r.first == r.last {
      out := out + FormatInt(r.first);
      return;
    }
    out := out + (FormatInt(r.first) + "-" + FormatInt(r.last));
  }

  lemma JoinSnoc(rs: seq<Stretch>, r: Stretch)
    ensures Join(rs + [r]) == if rs == [] then Text(r) else Join(rs) + "," + Text(r)
    ensures rs != [] ==> Join(rs) != ""
  {
    assert (rs + [r])[..|rs|] == rs;
    if |rs| > 1 { assert |Join(rs)| >= 1; }
  }

  /** The loop of formatAllowedPorts over the sorted ports. */
  method FormatSorted(sorted: seq<int>) returns (text: string)
    ensures text == Join(Stretches(sorted))
  {
    if |sorted| == 0 { return ""; }
    text := "";
    var rangeStart, previous := sorted[0], sorted[0];
    ghost var done: seq<Stretch> := [];
    FirstStretch(sorted);
    hide Join, Stretches;
    for i := 1 to |sorted|
      invariant previous == sorted[i - 1]
      invariant Stretches(sorted[..i]) == done + [Stretch(rangeStart, previous)]
      invariant text == Join(done) && (done == [] <==> text == "")
    {
      var port := sorted[i];
      NextStretch(sorted, i, done, Stretch(rangeStart, previous));
      if port != previous + 1 {
        JoinSnoc(done, Stretch(rangeStart, previous));
        text := Flush(text, Stretch(rangeStart, previous));
        done := done + [Stretch(rangeStart, previous)];
        rangeStart := port;
      }
      previous := port;
    }
    assert sorted[..|sorted|] == sorted;
    JoinSnoc(done, Stretch(rangeStart, previous));
    text := Flush(text, Stretch(rangeStart, previous));
  }

  lemma FirstStretch(sorted: seq<int>)
    requires sorted != []
    ensures Stretches(sorted[..1]) == [] + [Stretch(sorted[0], sorted[0])] && Join([]) == ""
  {
    assert sorted[..1][..0] == [];
  }

  lemma NextStretch(sorted: seq<int>, i: nat, done: seq<Stretch>, r: Stretch)
    requires 0 < i < |sorted| && Stretches(sorted[..i]) == done + [r]
    ensures Stretches(sorted[..i + 1])
            == if sorted[i] == r.last + 1 then done + [Stretch(r.first, sorted[i])]
                else done + [r] + [Stretch(sorted[i], sorted[i])]
  {
    assert sorted[..i + 1][..i] == sorted[..i] && sorted[..i + 1][i] == sorted[i];
    assert (done + [r])[..|done|] == done;
  }

  /** Inserting into an increasing list. */
  function Insert(sorted: seq<int>, x: int): seq<int> {
    if sorted == [] || sorted[|sorted| - 1] < x then sorted + [x]
    else Insert(sorted[..|sorted| - 1], x) + [sorted[|sorted| - 1]]
  }

  lemma SplitLast(sorted: seq<int>)
    requires Increasing(sorted) && sorted != []
    ensures var init, last := sorted[..|sorted| - 1], sorted[|sorted| - 1];
            Increasing(init) && Elements(sorted) == Elements(init) + {last} && forall y :: y in Elements(init) ==>
                y < last
  {
    assert sorted == sorted[..|sorted| - 1] + [sorted[|sorted| - 1]];
  }

  lemma AddLast(sorted: seq<int>, x: int)
    requires Increasing(sorted) && forall y :: y in Elements(sorted) ==> y < x
    ensures Increasing(sorted + [x]) && Elements(sorted + [x]) == Elements(sorted) + {x}
  {
    if sorted != [] { assert sorted[|sorted| - 1] in Elements(sorted); }
    Above(sorted, x);
  }

  lemma {:induction false} InsertKeeps(sorted: seq<int>, x: int)
    requires Increasing(sorted) && x !in Elements(sorted)
    ensures Increasing(Insert(sorted, x)) && Elements(Insert(sorted, x)) == Elements(sorted) + {x}
  {
    hide Increasing, Elements;
    if sorted == [] {
      EmptyIncreases();
      AddLast(sorted, x);
    } else {
      var init, last := sorted[..|sorted| - 1], sorted[|sorted| - 1];
      SplitLast(sorted);
      if last < x {
        AddLast(sorted, x);
      } else {
        InsertKeeps(init, x);
        AddLast(Insert(init, x), last);
      }
    }
  }

  predicate NoRepeats(keys: seq<int>) { forall i, j :: 0 <= i < j < |keys| ==> keys[i] != keys[j] }

  /** The keys in increasing order. */
  function SortAll(keys: seq<int>): seq<int> {
    if keys == [] then [] else Insert(SortAll(keys[..|keys| - 1]), keys[|keys| - 1])
  }

  lemma {:induction false} SortAllSorts(keys: seq<int>)
    requires NoRepeats(keys)
    ensures Increasing(SortAll(keys)) && Elements(SortAll(keys)) == Elements(keys)
  {
    if keys == [] {
      EmptyIncreases();
    } else {
      var n := |keys| - 1;
      SortAllSorts(keys[..n]);
      assert keys == keys[..n] + [keys[n]];
      Unseen(keys, n);
      InsertKeeps(SortAll(keys[..n]), keys[n]);
      assert Elements(keys) == Elements(keys[..n]) + {keys[n]};
      hide Insert, Increasing;
    }
  }

  /** formatAllowedPorts: the keys of the map, in any order, are sorted and printed. */
  method FormatAllowedPorts(keys: seq<int>) returns (text: string)
    requires NoRepeats(keys)
    ensures text == Join(Stretches(SortAll(keys)))
  {
    hide Join, Stretches, Insert;
    var sorted: seq<int> := [];
    for i := 0 to |keys|
      invariant sorted == SortAll(keys[..i])
    {
      assert keys[..i + 1][..i] == keys[..i];
      sorted := Insert(sorted, keys[i]);
    }
    assert keys[..|keys|] == keys;
    text := FormatSorted(sorted);
  }

  lemma EmptyIncreases()
    ensures Increasing([]) && Elements([]) == {}
  {
  }

  lemma Unseen(keys: seq<int>, i: nat)
    requires NoRepeats(keys) && i < |keys|
    ensures keys[i] !in Elements(keys[..i])
  {
  }

  lemma Above(sorted: seq<int>, x: int)
    requires Increasing(sorted) && (sorted != [] ==> sorted[|sorted| - 1] < x)
    ensures Increasing(sorted + [x])
  {
    forall i | 0 <= i < |sorted| ensures sorted[i] < x {
      assert i < |sorted| - 1 ==> sorted[i] < sorted[|sorted| - 1];
    }
  }

  /** The order of the map does not matter: there is one increasing list of the ports. */
  lemma {:induction false} SortedIsUnique(s: seq<int>, t: seq<int>)
    requires Increasing(s) && Increasing(t) && Elements(s) == Elements(t)
    ensures s == t
  {
    SomeElement(s);
    SomeElement(t);
    if s != [] && t != [] {
      LastIsMost(s);
      LastIsMost(t);
      SortedIsUnique(s[..|s| - 1], t[..|t| - 1]);
      assert s == s[..|s| - 1] + [s[|s| - 1]] && t == t[..|t| - 1] + [t[|t| - 1]];
    }
  }

  lemma SomeElement(s: seq<int>)
    ensures s == [] <==> Elements(s) == {}
  {
    if s != [] { assert s[0] in Elements(s); }
  }

  lemma LastIsMost(s: seq<int>)
    requires Increasing(s) && s != []
    ensures var last := s[|s| - 1];
            last in Elements(s) && (forall x :: x in Elements(s) ==> x <= last)
                && Elements(s[..|s| - 1]) == Elements(s) - {last}
  {
    assert s == s[..|s| - 1] + [s[|s| - 1]];
  }
}
