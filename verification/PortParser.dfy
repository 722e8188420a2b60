/** ParseAllowedPorts, and the round trip through formatAllowedPorts. */
module PortParser {
  import opened Basics
  import opened Decimal
  import opened PortList

  /** unicode.IsSpace. */
  predicate IsSpace(c: char) {
    || c == ' ' || '\t' <= c <= '\r' || c == '\U{0085}' || c == '\U{00A0}' || c == '\U{1680}'
       || '\U{2000}' <= c <= '\U{200a}'
    || c == '\U{2028}' || c == '\U{2029}' || c == '\U{202f}' || c == '\U{205f}' || c == '\U{3000}'
  }

  function TrimLeft(s: string): string { if s != "" && IsSpace(s[0]) then TrimLeft(s[1..]) else s }

  function TrimRight(s: string): string { if s != "" && IsSpace(s[|s| - 1]) then TrimRight(s[..|s| - 1]) else s }

  function TrimSpace(s: string): string { TrimRight(TrimLeft(s)) }

  function Before(s: string, c: char): string { if s == "" || s[0] == c then "" else [s[0]] + Before(s[1..], c) }

  function After(s: string, c: char): string { if s == "" then "" else if s[0] == c then s[1..] else After(s[1..], c) }

  lemma AfterIsShorter(s: string, c: char)
    requires c in s
    ensures |After(s, c)| < |s|
  {
  }

  function Split(s: string, c: char): (parts: seq<string>)
    ensures parts != []
    decreases |s|
  {
    if c !in s then [s]
    else
      AfterIsShorter(s, c);
      [Before(s, c)] + Split(After(s, c), c)
  }

  /** strconv.Atoi; a number beyond 64 bits is out of range for a port as well. */
  function Atoi(s: string): Option<int> {
    var digits := if s != "" && (s[0] == '-' || s[0] == '+') then s[1..] else s;
    if digits == "" || !AllDigits(digits) then None
    else var v: int := Value(digits); Some(if s[0] == '-' then -v else v)
  }

  /** One comma-separated entry: a port or a range. */
  function ParsePart(part: string): Option<Stretch> {
    var p := TrimSpace(part);
    if p == "" then None
    else if '-' in p then
      var first, last := Atoi(TrimSpace(Before(p, '-'))), Atoi(TrimSpace(After(p, '-')));
      if first.None? || last.None? || first.value <= 0 || last.value > MAX_PORT || first.value > last.value then None
      else Some(Stretch(first.value, last.value))
    else
      var n := Atoi(p);
      if n.None? || n.value <= 0 || n.value > MAX_PORT then None else Some(Stretch(n.value, n.value))
  }

  function Ports(r: Stretch): set<int> { set p: int | r.first <= p <= r.last && In(r, p) }

  function ParseParts(parts: seq<string>): Option<set<int>> {
    if parts == [] then Some({})
    else
      match ParseParts(parts[..|parts| - 1])
      case None => None
      case Some(ports) =>
        match ParsePart(parts[|parts| - 1])
        case None => None
        case Some(r) => Some(ports + Ports(r))
  }

  /** The result: an error, no restriction (the nil map), or exactly these ports. */
  datatype Allowed = Invalid | AnyPort | Only(ports: set<int>)

  function ParseAllowedPorts(raw: string): Allowed {
    var s := TrimSpace(raw);
    if s == "" then (if raw != "" then Invalid else AnyPort)
    else match ParseParts(Split(s, ','))
         case None => Invalid
         case Some(ports) => Only(ports)
  }

  // --- the loop

  method FillRange(ports: set<int>, first: int, last: int) returns (out: set<int>)
    requires first <= last
    ensures out == ports + Ports(Stretch(first, last))
  {
    out := ports;
    var p := first;
    while p <= last
      invariant first <= p <= last + 1
      invariant out == ports + Ports(Stretch(first, p - 1))
    {
      assert Ports(Stretch(first, p)) == Ports(Stretch(first, p - 1)) + {p} by { OneMorePort(first, p); }
      out := out + {p};
      p := p + 1;
    }
  }

  lemma OneMorePort(first: int, p: int)
    requires first <= p
    ensures Ports(Stretch(first, p)) == Ports(Stretch(first, p - 1)) + {p}
  {
    assert In(Stretch(first, p), p);
    forall x ensures x in Ports(Stretch(first, p)) <==> x in Ports(Stretch(first, p - 1)) + {p} {
      assert In(Stretch(first, p), x) <==> In(Stretch(first, p - 1), x) || x == p;
    }
  }

  method ParseAllowedPortsLoop(raw: string) returns (r: Allowed)
    ensures r == ParseAllowedPorts(raw)
  {
    hide TrimSpace, Split, ParseParts, ParsePart, Ports;
    var s := TrimSpace(raw);
    if s == "" { return if raw != "" then Invalid else AnyPort; }
    var ports: set<int> := {};
    var parts := Split(s, ',');
    NoParts();
    for i := 0 to |parts|
      invariant ParseParts(parts[..i]) == Some(ports)
    {
      PartsStep(parts, i);
      var range := ParsePart(parts[i]);
      if range.None? {
        FailsOnce(parts, i + 1);
        return Invalid;
      }
      PartIsRange(parts[i]);
      ports := FillRange(ports, range.value.first, range.value.last);
    }
    assert parts[..|parts|] == parts;
    return Only(ports);
  }

  lemma NoParts()
    ensures ParseParts([]) == Some({})
  {
  }

  lemma PartsStep(parts: seq<string>, i: nat)
    requires i < |parts| && ParseParts(parts[..i]).Some?
    ensures ParseParts(parts[..i + 1])
            == if ParsePart(parts[i]).None? then None
                else Some(ParseParts(parts[..i]).value + Ports(ParsePart(parts[i]).value))
    ensures parts[..0] == []
  {
    assert parts[..i + 1][..i] == parts[..i];
    hide ParsePart, Ports;
  }

  lemma {:induction false} FailsOnce(parts: seq<string>, i: nat)
    requires i <= |parts| && ParseParts(parts[..i]).None?
    ensures ParseParts(parts).None?
    decreases |parts|
  {
    hide ParsePart, Ports;
    if i < |parts| {
      assert parts[..|parts| - 1][..i] == parts[..i];
      FailsOnce(parts[..|parts| - 1], i);
    } else {
      assert parts[..i] == parts;
    }
  }

  lemma PartIsRange(part: string)
    ensures ParsePart(part).Some? ==> 0 < ParsePart(part).value.first <= ParsePart(part).value.last <= MAX_PORT
  {
    hide TrimSpace, Before, After, Atoi;
  }

  // --- the round trip

  predicate NoSpace(s: string) { forall c <- s :: !IsSpace(c) }

  lemma NothingToTrim(s: string)
    requires NoSpace(s)
    ensures TrimSpace(s) == s
  {
    if s != "" { assert s[0] in s && s[|s| - 1] in s; }
  }

  lemma DigitsAreDense(s: string)
    requires AllDigits(s)
    ensures NoSpace(s) && '-' !in s && ',' !in s && '+' !in s
  {
  }

  lemma {:induction false} CutAt(a: string, c: char, b: string)
    requires c !in a
    ensures Before(a + [c] + b, c) == a && After(a + [c] + b, c) == b && c in a + [c] + b
  {
    var s := a + [c] + b;
    if a == "" {
      assert s[0] == c && s[1..] == b;
    } else {
      assert s[1..] == a[1..] + [c] + b && s[0] == a[0];
      assert forall x <- a[1..] :: x in a;
      CutAt(a[1..], c, b);
      assert [a[0]] + a[1..] == a;
    }
  }

  lemma {:induction false} SplitSnoc(s: string, t: string, c: char)
    requires c !in t
    ensures Split(s + [c] + t, c) == Split(s, c) + [t]
    decreases |s|
  {
    var all := s + [c] + t;
    if c !in s {
      CutAt(s, c, t);
    } else {
      AfterIsShorter(s, c);
      CutFirst(s, c);
      var a, b := Before(s, c), After(s, c);
      assert all == a + [c] + (b + [c] + t);
      CutAt(a, c, b + [c] + t);
      SplitSnoc(b, t, c);
      assert [a] + (Split(b, c) + [t]) == [a] + Split(b, c) + [t];
    }
  }

  lemma {:induction false} CutFirst(s: string, c: char)
    requires c in s
    ensures s == Before(s, c) + [c] + After(s, c) && c !in Before(s, c)
  {
    if s[0] != c {
      CutFirst(s[1..], c);
      assert s == [s[0]] + s[1..];
    } else {
      assert s == [c] + s[1..];
    }
  }

  lemma AtoiOfFormat(n: nat)
    ensures Atoi(FormatUint(n)) == Some(n)
  {
    ValueOfFormat(n);
    var s := FormatUint(n);
    assert IsDigit(s[0]);
  }

  predicate Valid(r: Stretch) { 1 <= r.first <= r.last <= MAX_PORT }

  lemma TextIsDense(r: Stretch)
    ensures NoSpace(Text(r)) && ',' !in Text(r)
  {
    IntIsDense(r.first);
    IntIsDense(r.last);
  }

  lemma IntIsDense(n: int)
    ensures NoSpace(FormatInt(n)) && ',' !in FormatInt(n)
  {
    if n < 0 { DigitsAreDense(FormatUint(-n)); } else { DigitsAreDense(FormatUint(n)); }
  }

  lemma SinglePart(n: nat)
    ensures ParsePart(FormatUint(n)) == if 0 < n <= MAX_PORT then Some(Stretch(n, n)) else None
  {
    DigitsAreDense(FormatUint(n));
    NothingToTrim(FormatUint(n));
    AtoiOfFormat(n);
    hide TrimSpace, Atoi;
  }

  lemma RangePart(a: nat, b: nat)
    requires a <= b
    ensures ParsePart(FormatUint(a) + "-" + FormatUint(b))
            == if 0 < a && b <= MAX_PORT then Some(Stretch(a, b)) else None
  {
    DigitsAreDense(FormatUint(a));
    DigitsAreDense(FormatUint(b));
    var p := FormatUint(a) + "-" + FormatUint(b);
    assert NoSpace(p);
    NothingToTrim(p);
    NothingToTrim(FormatUint(a));
    NothingToTrim(FormatUint(b));
    CutAt(FormatUint(a), '-', FormatUint(b));
    AtoiOfFormat(a);
    AtoiOfFormat(b);
    hide TrimSpace, Atoi, Before, After;
  }

  lemma NegativePart(p: string)
    requires p != "" && p[0] == '-' && NoSpace(p)
    ensures ParsePart(p) == None
  {
    NothingToTrim(p);
    assert Before(p, '-') == "";
    NothingToTrim("");
    hide TrimSpace, Before, After;
  }

  /** A printed stretch is parsed back exactly when it lies within the port numbers; otherwise it is an error. */
  lemma StretchRoundTrip(r: Stretch)
    requires r.first <= r.last
    ensures ParsePart(Text(r)) == if Valid(r) then Some(r) else None
  {
    hide ParsePart;
    if r.first < 0 {
      TextIsDense(r);
      NegativePart(Text(r));
    } else if r.first == r.last {
      SinglePart(r.first);
    } else {
      RangePart(r.first, r.last);
    }
  }

  function Texts(rs: seq<Stretch>): (ts: seq<string>)
    ensures |ts| == |rs| && forall i :: 0 <= i < |rs| ==> ts[i] == Text(rs[i])
  {
    seq(|rs|, i requires 0 <= i < |rs| => Text(rs[i]))
  }

  lemma Unsplit(t: string)
    requires ',' !in t
    ensures Split(t, ',') == [t]
  {
  }

  lemma Comma()
    ensures !IsSpace(',')
  {
  }

  lemma {:induction false} SplitJoin(rs: seq<Stretch>)
    requires rs != []
    ensures Split(Join(rs), ',') == Texts(rs) && NoSpace(Join(rs)) && Join(rs) != ""
  {
    hide Split, IsSpace, Text;
    var n := |rs| - 1;
    TextIsDense(rs[n]);
    if n == 0 {
      assert Texts(rs) == [Text(rs[0])];
      Unsplit(Text(rs[0]));
    } else {
      SplitJoin(rs[..n]);
      SplitSnoc(Join(rs[..n]), Text(rs[n]), ',');
      assert Texts(rs) == Texts(rs[..n]) + [Text(rs[n])];
      Comma();
    }
  }

  lemma {:induction false} PartsRoundTrip(rs: seq<Stretch>)
    requires forall i :: 0 <= i < |rs| ==> rs[i].first <= rs[i].last
    ensures ParseParts(Texts(rs)).Some? <==> forall i :: 0 <= i < |rs| ==> Valid(rs[i])
    ensures ParseParts(Texts(rs)).Some? ==> forall p :: p in ParseParts(Texts(rs)).value <==> InSome(rs, p)
  {
    hide ParsePart, Text;
    if rs != [] {
      var n := |rs| - 1;
      var init, last := rs[..n], rs[n];
      assert rs == init + [last];
      assert Texts(rs)[..n] == Texts(init);
      PartsRoundTrip(init);
      StretchRoundTrip(last);
      assert (forall i :: 0 <= i < |rs| ==> Valid(rs[i]))
             <==> (forall i :: 0 <= i < n ==> Valid(init[i])) && Valid(last) by {
        assert forall i :: 0 <= i < n ==> init[i] == rs[i];
      }
      hide Valid, InSome, Texts;
      if ParseParts(Texts(rs)).Some? {
        forall p ensures p in ParseParts(Texts(rs)).value <==> InSome(rs, p) { InSnoc(init, last, p); }
      }
    }
  }

  predicate AllPorts(sorted: seq<int>) { forall p :: p in sorted ==> 1 <= p <= MAX_PORT }

  lemma EndsAreIn(rs: seq<Stretch>, i: nat)
    requires Separated(rs) && i < |rs|
    ensures rs[i].first <= rs[i].last && InSome(rs, rs[i].first) && InSome(rs, rs[i].last)
  {
    assert In(rs[i], rs[i].first) && In(rs[i], rs[i].last);
  }

  lemma MemberIsPort(rs: seq<Stretch>, p: int)
    requires InSome(rs, p) && forall i :: 0 <= i < |rs| ==> Valid(rs[i])
    ensures 1 <= p <= MAX_PORT
  {
  }

  /** The stretches are ports exactly when the members are. */
  lemma StretchesAreValid(sorted: seq<int>, rs: seq<Stretch>)
    requires Separated(rs) && forall p :: InSome(rs, p) <==> p in sorted
    ensures (forall i :: 0 <= i < |rs| ==> Valid(rs[i])) <==> AllPorts(sorted)
    ensures forall i :: 0 <= i < |rs| ==> rs[i].first <= rs[i].last
  {
    hide InSome, Separated;
    forall i: nat | i < |rs| ensures rs[i].first <= rs[i].last && rs[i].first in sorted && rs[i].last in sorted {
      EndsAreIn(rs, i);
    }
    if forall i :: 0 <= i < |rs| ==> Valid(rs[i]) {
      forall p | p in sorted ensures 1 <= p <= MAX_PORT { MemberIsPort(rs, p); }
    }
  }

  /** What parsing makes of a joined list of stretches. */
  lemma JoinedParses(rs: seq<Stretch>)
    requires rs != [] && Separated(rs)
    ensures ParseAllowedPorts(Join(rs))
            == if ParseParts(Texts(rs)).Some? then Only(ParseParts(Texts(rs)).value) else Invalid
  {
    hide Join, Split, ParseParts, Texts, TrimSpace;
    SplitJoin(rs);
    NothingToTrim(Join(rs));
  }

  /** Parsing undoes printing exactly for the non-empty sets of port numbers. */
  lemma PortsRoundTrip(sorted: seq<int>)
    requires Increasing(sorted)
    ensures ParseAllowedPorts(Join(Stretches(sorted))) == Only(Elements(sorted)) <==> sorted != [] && AllPorts(sorted)
  {
    var rs := Stretches(sorted);
    if sorted == [] {
      assert Join(rs) == "" && TrimSpace("") == "";
    } else {
      StretchesCover(sorted);
      hide Stretches, Join, ParseParts, InSome, Valid, AllPorts, Texts, Increasing, ParseAllowedPorts, Separated;
      StretchesAreValid(sorted, rs);
      JoinedParses(rs);
      PartsRoundTrip(rs);
      if ParseParts(Texts(rs)).Some? { SameMembers(ParseParts(Texts(rs)).value, rs, sorted); }
    }
  }

  lemma SameMembers(ports: set<int>, rs: seq<Stretch>, sorted: seq<int>)
    requires forall p :: p in ports <==> InSome(rs, p)
    requires forall p :: InSome(rs, p) <==> p in sorted
    ensures ports == Elements(sorted)
  {
    hide InSome;
    forall p: int ensures p in ports <==> p in Elements(sorted) {
      assert p in ports <==> InSome(rs, p);
      assert InSome(rs, p) <==> p in sorted;
    }
  }

  /** So no two sets of ports are printed alike. */
  lemma PrintingIsInjective(s: seq<int>, t: seq<int>)
    requires Increasing(s) && Increasing(t) && s != [] && t != [] && AllPorts(s) && AllPorts(t)
    requires Join(Stretches(s)) == Join(Stretches(t))
    ensures s == t
  {
    hide ParseAllowedPorts, Join, Stretches, AllPorts;
    PortsRoundTrip(s);
    PortsRoundTrip(t);
    SortedIsUnique(s, t);
  }
}
