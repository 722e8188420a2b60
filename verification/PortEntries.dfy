/** What ParseAllowedPorts accepts: numbers and ranges with any blanks around them, and nothing else. */
module PortEntries {
  import opened Basics
  import opened Decimal
  import opened PortList
  import opened PortParser

  predicate Blank(s: string) { forall c <- s :: IsSpace(c) }

  /** No blank at either end. */
  predicate Tight(s: string) { s != "" ==> !IsSpace(s[0]) && !IsSpace(s[|s| - 1]) }

  /** Among the ASCII characters: the space and the five from tab to carriage return. */
  lemma AsciiBlanks(c: char)
    requires c < '\U{0080}'
    ensures IsSpace(c) <==> c in " \t\n\U{000B}\U{000C}\r"
  {
    assert '\t' as int == 9 && '\n' as int == 10 && '\r' as int == 13;
    if '\t' <= c <= '\r' { assert c as int in {9, 10, 11, 12, 13}; }
  }

  // --- trimming

  lemma {:induction false} TrimLeftPad(l: string, s: string)
    requires Blank(l)
    ensures TrimLeft(l + s) == TrimLeft(s)
  {
    hide IsSpace;
    if l == "" {
      assert l + s == s;
    } else {
      assert (l + s)[0] == l[0] && (l + s)[1..] == l[1..] + s && l[0] in l;
      assert forall c <- l[1..] :: c in l;
      TrimLeftPad(l[1..], s);
    }
  }

  lemma {:induction false} TrimRightPad(s: string, r: string)
    requires Blank(r)
    ensures TrimRight(s + r) == TrimRight(s)
  {
    hide IsSpace;
    if r == "" {
      assert s + r == s;
    } else {
      var n := |r| - 1;
      assert (s + r)[..|s + r| - 1] == s + r[..n] && (s + r)[|s + r| - 1] == r[n] && r[n] in r;
      assert forall c <- r[..n] :: c in r;
      TrimRightPad(s, r[..n]);
    }
  }

  lemma {:induction false} TrimLeftParts(s: string) returns (l: string)
    ensures Blank(l) && s == l + TrimLeft(s) && (TrimLeft(s) != "" ==> !IsSpace(TrimLeft(s)[0]))
  {
    hide IsSpace;
    if s != "" && IsSpace(s[0]) {
      var l2 := TrimLeftParts(s[1..]);
      l := [s[0]] + l2;
      assert s == [s[0]] + s[1..];
    } else {
      l := "";
    }
  }

  lemma {:induction false} TrimRightParts(s: string) returns (r: string)
    ensures Blank(r) && s == TrimRight(s) + r && (TrimRight(s) != "" ==> !IsSpace(TrimRight(s)[|TrimRight(s)| - 1]))
  {
    hide IsSpace;
    if s != "" && IsSpace(s[|s| - 1]) {
      var n := |s| - 1;
      var r2 := TrimRightParts(s[..n]);
      r := r2 + [s[n]];
      assert s == s[..n] + [s[n]];
    } else {
      r := "";
    }
  }

  /** A text is its trimmed self between two blanks. */
  lemma TrimParts(s: string) returns (l: string, r: string)
    ensures Blank(l) && Blank(r) && s == l + TrimSpace(s) + r && Tight(TrimSpace(s))
  {
    hide IsSpace;
    l := TrimLeftParts(s);
    r := TrimRightParts(TrimLeft(s));
    assert s == l + (TrimSpace(s) + r);
  }

  lemma AllBlank(s: string)
    requires Blank(s)
    ensures TrimLeft(s) == ""
  {
    TrimLeftPad(s, "");
    assert s + "" == s;
  }

  lemma TightStays(s: string)
    requires Tight(s)
    ensures TrimLeft(s) == s && TrimRight(s) == s
  {
    hide IsSpace;
  }

  /** And the only one: whatever blanks stand around a tight text, trimming finds it. */
  lemma TrimPadded(l: string, s: string, r: string)
    requires Blank(l) && Blank(r) && Tight(s)
    ensures TrimSpace(l + s + r) == s
  {
    hide IsSpace, TrimLeft, TrimRight;
    TightStays(s);
    assert l + s + r == l + (s + r);
    TrimLeftPad(l, s + r);
    if s == "" {
      assert s + r == r;
      AllBlank(r);
      assert TrimRight("") == "" by { TightStays(""); }
    } else {
      TightLeft(s, r);
      TrimRightPad(s, r);
    }
  }

  lemma TightLeft(s: string, r: string)
    requires s != "" && !IsSpace(s[0])
    ensures TrimLeft(s + r) == s + r
  {
    assert (s + r)[0] == s[0];
  }

  /** Blanks around a text do not matter to trimming. */
  lemma TrimPads(l: string, s: string, r: string)
    requires Blank(l) && Blank(r)
    ensures TrimSpace(l + s + r) == TrimSpace(s)
  {
    hide IsSpace, TrimSpace;
    var l2, r2 := TrimParts(s);
    var t := TrimSpace(s);
    assert l + s + r == (l + l2) + t + (r2 + r);
    assert Blank(l + l2) && Blank(r2 + r);
    TrimPadded(l + l2, t, r2 + r);
  }

  // --- one entry

  /** Decimal digits, with or without a plus sign. */
  ghost predicate Number(s: string, n: nat) {
    var d := if s != "" && s[0] == '+' then s[1..] else s;
    d != "" && AllDigits(d) && Value(d) == n
  }

  /** Such a number between blanks. */
  ghost predicate NumberIn(s: string, n: nat) {
    exists l: string, d: string, r: string :: Blank(l) && Blank(r) && Number(d, n) && s == l + d + r
  }

  lemma NumberIsTight(s: string, n: nat)
    requires Number(s, n)
    ensures Tight(s) && s != "" && '-' !in s && Atoi(s) == Some(n)
  {
    var d := if s != "" && s[0] == '+' then s[1..] else s;
    assert s == d || s == ['+'] + d;
    DigitsAreDense(d);
    assert d[0] in d && d[|d| - 1] in d && IsDigit(d[0]);
  }

  /** Atoi on a trimmed text finds exactly the numbers. */
  lemma AtoiIsExact(s: string, n: nat)
    requires n > 0
    ensures Atoi(TrimSpace(s)) == Some(n) <==> NumberIn(s, n)
  {
    hide TrimSpace;
    var l, r := TrimParts(s);
    var t := TrimSpace(s);
    if Atoi(t) == Some(n) {
      assert Number(t, n);
      assert s == l + t + r;
    }
    if NumberIn(s, n) {
      var l2: string, d: string, r2: string :| Blank(l2) && Blank(r2) && Number(d, n) && s == l2 + d + r2;
      NumberIsTight(d, n);
      TrimPadded(l2, d, r2);
    }
  }

  lemma DashStays(s: string)
    ensures '-' in TrimSpace(s) <==> '-' in s
  {
    hide TrimSpace;
    var l, r := TrimParts(s);
    assert !IsSpace('-');
    hide IsSpace;
    assert '-' !in l && '-' !in r;
  }

  /** A single port is a number from 1 to 65535 between blanks, and any such number is one. */
  lemma SingleIsExact(s: string, n: nat)
    requires '-' !in s
    ensures ParsePart(s) == Some(Stretch(n, n)) <==> 0 < n <= 65535 && NumberIn(s, n)
    ensures ParsePart(s).Some? ==> ParsePart(s).value.first == ParsePart(s).value.last
  {
    hide TrimSpace, Atoi, NumberIn;
    DashStays(s);
    NoNumber();
    if n > 0 { AtoiIsExact(s, n); }
  }

  lemma NoNumber()
    ensures Atoi("") == None
  {
  }

  /** Trimming a range leaves the inner blanks of its two ends. */
  lemma TrimRange(a: string, b: string)
    requires '-' !in a
    ensures var t := TrimSpace(a + "-" + b);
            t == TrimLeft(a) + "-" + TrimRight(b) && '-' !in TrimLeft(a)
  {
    hide IsSpace, TrimLeft, TrimRight;
    var l := TrimLeftParts(a);
    var r := TrimRightParts(b);
    var a2, b2 := TrimLeft(a), TrimRight(b);
    var t := a2 + "-" + b2;
    assert !IsSpace('-') by { Dash(); }
    assert Tight(t) by { assert t[0] == if a2 == "" then '-' else a2[0]; }
    assert a + "-" + b == l + t + r;
    TrimPadded(l, t, r);
  }

  lemma Dash()
    ensures !IsSpace('-')
  {
  }

  lemma TrimTrimmed(a: string)
    ensures TrimSpace(TrimLeft(a)) == TrimSpace(a) && TrimSpace(TrimRight(a)) == TrimSpace(a)
  {
    hide IsSpace, TrimSpace, TrimLeft, TrimRight;
    var l := TrimLeftParts(a);
    var r := TrimRightParts(a);
    TrimPads(l, TrimLeft(a), "");
    TrimPads("", TrimRight(a), r);
    assert l + TrimLeft(a) + "" == a && "" + TrimRight(a) + r == a;
  }

  /** What is parsed of a range: the two texts around its first dash, without their blanks. */
  lemma RangeParts(a: string, b: string)
    requires '-' !in a
    ensures var (x, y) := (Atoi(TrimSpace(a)), Atoi(TrimSpace(b)));
            ParsePart(a + "-" + b) == if x.Some? && y.Some? && 0 < x.value <= y.value <= 65535
                                      then Some(Stretch(x.value, y.value)) else None
  {
    hide TrimSpace, Atoi, TrimLeft, TrimRight, Before, After;
    TrimRange(a, b);
    CutAt(TrimLeft(a), '-', TrimRight(b));
    TrimTrimmed(a);
    TrimTrimmed(b);
  }

  /**
   A range is two numbers from 1 to 65535 around a dash, the first not above the second, each
   between blanks; and any such text is one.
   */
  lemma RangeIsExact(a: string, b: string, x: nat, y: nat)
    requires '-' !in a
    ensures ParsePart(a + "-" + b) == Some(Stretch(x, y)) <==>
              0 < x <= y <= 65535 && NumberIn(a, x) && NumberIn(b, y)
  {
    hide TrimSpace, Atoi, NumberIn, ParsePart;
    RangeParts(a, b);
    if x > 0 { AtoiIsExact(a, x); }
    if y > 0 { AtoiIsExact(b, y); }
  }

  // --- blanks

  /** q is the entry p with more blanks around it, or around the ends of its range. */
  ghost predicate Spaced(p: string, q: string) {
    || (exists l: string, r: string :: Blank(l) && Blank(r) && q == l + p + r)
    || (exists a: string, b: string, a2: string, b2: string ::
          '-' !in a && Spread(a, a2) && Spread(b, b2) && p == a + "-" + b && q == a2 + "-" + b2)
  }

  ghost predicate Spread(a: string, a2: string) {
    exists l: string, r: string :: Blank(l) && Blank(r) && a2 == l + a + r
  }

  lemma SpreadTrims(a: string, a2: string)
    requires Spread(a, a2)
    ensures TrimSpace(a2) == TrimSpace(a) && ('-' in a2 <==> '-' in a) && (',' in a2 <==> ',' in a)
  {
    var l: string, r: string :| Blank(l) && Blank(r) && a2 == l + a + r;
    assert !IsSpace('-') && !IsSpace(',');
    hide IsSpace, TrimSpace;
    TrimPads(l, a, r);
    assert '-' !in l && '-' !in r && ',' !in l && ',' !in r;
  }

  /** Such blanks change nothing. */
  lemma BlanksInEntry(p: string, q: string)
    requires Spaced(p, q)
    ensures ParsePart(q) == ParsePart(p) && (',' in q <==> ',' in p)
  {
    hide ParsePart, TrimSpace;
    if l: string, r: string :| Blank(l) && Blank(r) && q == l + p + r {
      assert Spread(p, q);
      SpreadTrims(p, q);
      SameTrimmed(p, q);
    } else {
      var a: string, b: string, a2: string, b2: string :|
        '-' !in a && Spread(a, a2) && Spread(b, b2) && p == a + "-" + b && q == a2 + "-" + b2;
      SpreadTrims(a, a2);
      SpreadTrims(b, b2);
      RangeParts(a, b);
      RangeParts(a2, b2);
    }
  }

  lemma SameTrimmed(p: string, q: string)
    requires TrimSpace(p) == TrimSpace(q)
    ensures ParsePart(p) == ParsePart(q)
  {
    hide TrimSpace, Atoi, Before, After;
  }

  // --- the whole text

  /** Entries joined by commas. */
  function Commas(parts: seq<string>): string
    requires parts != []
  {
    if |parts| == 1 then parts[0] else Commas(parts[..|parts| - 1]) + "," + parts[|parts| - 1]
  }

  lemma {:induction false} SplitCommas(parts: seq<string>)
    requires parts != [] && forall p <- parts :: ',' !in p
    ensures Split(Commas(parts), ',') == parts
  {
    hide Split;
    var n := |parts| - 1;
    assert parts[n] in parts;
    if n == 0 {
      Unsplit(parts[0]);
      assert parts == [parts[0]];
    } else {
      assert forall p <- parts[..n] :: p in parts;
      SplitCommas(parts[..n]);
      SplitSnoc(Commas(parts[..n]), parts[n], ',');
      assert parts == parts[..n] + [parts[n]];
    }
  }

  function Outcome(ports: Option<set<int>>): Allowed { if ports.None? then Invalid else Only(ports.value) }

  lemma {:induction false} SameParts(parts: seq<string>, others: seq<string>)
    requires |parts| == |others| && forall i :: 0 <= i < |parts| ==> ParsePart(parts[i]) == ParsePart(others[i])
    ensures ParseParts(parts) == ParseParts(others)
  {
    hide ParsePart, Ports;
    if parts != [] { SameParts(parts[..|parts| - 1], others[..|parts| - 1]); }
  }

  /** The text is cut at its commas; the blanks at its two ends belong to the first and the last entry. */
  lemma SplitPadded(l: string, s: string, r: string)
    requires Blank(l) && Blank(r)
    ensures ParseParts(Split(l + s + r, ',')) == ParseParts(Split(s, ','))
  {
    hide ParseParts, ParsePart, Split, IsSpace;
    NoCommaIn(l);
    NoCommaIn(r);
    var parts, padded := Split(s, ','), Split(l + s + r, ',');
    SplitFront(l, s + r);
    SplitBack(s, r);
    assert l + s + r == l + (s + r);
    var middle := Split(s + r, ',');
    FrontPad(middle, l);
    BackPad(parts, r);
  }

  lemma NoCommaIn(l: string)
    requires Blank(l)
    ensures ',' !in l
  {
  }

  /** A prefix without a comma goes to the first part. */
  lemma {:induction false} SplitFront(l: string, s: string)
    requires ',' !in l
    ensures Split(l + s, ',') == [l + Split(s, ',')[0]] + Split(s, ',')[1..]
  {
    if ',' !in s {
      Unsplit(s);
      Unsplit(l + s);
    } else {
      CutFirst(s, ',');
      var a, b := Before(s, ','), After(s, ',');
      AfterIsShorter(s, ',');
      assert l + s == (l + a) + [','] + b;
      CutAt(l + a, ',', b);
      assert Split(s, ',') == [a] + Split(b, ',');
      AfterIsShorter(l + s, ',');
      assert Split(l + s, ',') == [l + a] + Split(b, ',');
    }
  }

  /** A suffix without a comma goes to the last part. */
  lemma {:induction false} SplitBack(s: string, r: string)
    requires ',' !in r
    ensures var parts := Split(s, ','); var n := |parts| - 1; Split(s + r, ',') == parts[..n] + [parts[n] + r]
    decreases |s|
  {
    if ',' !in s {
      Unsplit(s);
      Unsplit(s + r);
    } else {
      CutFirst(s, ',');
      var a, b := Before(s, ','), After(s, ',');
      AfterIsShorter(s, ',');
      assert s + r == a + [','] + (b + r);
      CutAt(a, ',', b + r);
      AfterIsShorter(s + r, ',');
      SplitBack(b, r);
      var rest := Split(b, ',');
      assert Split(s, ',') == [a] + rest;
      assert Split(s + r, ',') == [a] + Split(b + r, ',');
      assert ([a] + rest)[..|rest|] == [a] + rest[..|rest| - 1];
    }
  }

  lemma SpacedBefore(p: string, l: string)
    requires Blank(l)
    ensures ParsePart(l + p) == ParsePart(p)
  {
    hide ParsePart, IsSpace;
    assert Blank("") && l + p == l + p + "";
    assert Spaced(p, l + p);
    hide Spaced;
    BlanksInEntry(p, l + p);
  }

  lemma SpacedBehind(p: string, r: string)
    requires Blank(r)
    ensures ParsePart(p + r) == ParsePart(p)
  {
    hide ParsePart, IsSpace;
    assert Blank("") && p + r == "" + p + r;
    assert Spaced(p, p + r);
    hide Spaced;
    BlanksInEntry(p, p + r);
  }

  lemma FrontPad(parts: seq<string>, l: string)
    requires parts != [] && Blank(l)
    ensures ParseParts([l + parts[0]] + parts[1..]) == ParseParts(parts)
  {
    hide ParsePart, ParseParts;
    SpacedBefore(parts[0], l);
    SameParts([l + parts[0]] + parts[1..], parts);
  }

  lemma BackPad(parts: seq<string>, r: string)
    requires parts != [] && Blank(r)
    ensures var n := |parts| - 1; ParseParts(parts[..n] + [parts[n] + r]) == ParseParts(parts)
  {
    hide ParsePart, ParseParts;
    var n := |parts| - 1;
    SpacedBehind(parts[n], r);
    SameParts(parts[..n] + [parts[n] + r], parts);
  }

  /** No text is no restriction, and nothing else is: blanks alone are an error. */
  lemma OnlyEmptyIsAny(raw: string)
    ensures ParseAllowedPorts(raw) == AnyPort <==> raw == ""
    ensures raw != "" && Blank(raw) ==> ParseAllowedPorts(raw) == Invalid
  {
    hide ParseParts, Split, IsSpace;
    if Blank(raw) { AllBlank(raw); }
    TightStays("");
  }

  /** Any other text is its entries, one by one. */
  lemma EntriesDecide(raw: string)
    requires raw != ""
    ensures ParseAllowedPorts(raw) == Outcome(ParseParts(Split(raw, ',')))
  {
    hide ParseParts, Split, TrimSpace, IsSpace, ParsePart;
    var l, r := TrimParts(raw);
    if TrimSpace(raw) == "" {
      assert raw == l + r;
      NoCommaIn(raw);
      Unsplit(raw);
      BlankEntry(raw);
      OneEntry(raw);
    } else {
      SplitPadded(l, TrimSpace(raw), r);
    }
  }

  lemma BlankEntry(s: string)
    requires Blank(s)
    ensures ParsePart(s) == None
  {
    hide IsSpace;
    AllBlank(s);
    TightStays("");
  }

  lemma OneEntry(s: string)
    requires ParsePart(s) == None
    ensures ParseParts([s]) == None
  {
    hide ParsePart;
    assert [s][..0] == [];
  }

  /**
   Blanks do not matter: around the entries, around the two ends of a range, and at the ends of
   the text. Only the empty text is something else with blanks than without.
   */
  lemma BlanksDoNotMatter(parts: seq<string>, spaced: seq<string>)
    requires parts != [] && |parts| == |spaced| && forall p <- parts :: ',' !in p
    requires forall i :: 0 <= i < |parts| ==> Spaced(parts[i], spaced[i])
    requires Commas(parts) != ""
    ensures ParseAllowedPorts(Commas(spaced)) == ParseAllowedPorts(Commas(parts))
  {
    hide ParseAllowedPorts, ParseParts, ParsePart, Split, Spaced, Commas;
    forall i | 0 <= i < |parts| ensures ParsePart(spaced[i]) == ParsePart(parts[i]) && ',' !in spaced[i] {
      assert parts[i] in parts;
      BlanksInEntry(parts[i], spaced[i]);
    }
    assert Commas(spaced) != "" by { NeverEmpty(parts, spaced); }
    SplitCommas(parts);
    SplitCommas(spaced);
    SameParts(spaced, parts);
    EntriesDecide(Commas(parts));
    EntriesDecide(Commas(spaced));
  }

  lemma NeverEmpty(parts: seq<string>, spaced: seq<string>)
    requires parts != [] && |parts| == |spaced| && Commas(parts) != ""
    requires forall i :: 0 <= i < |parts| ==> Spaced(parts[i], spaced[i])
    ensures Commas(spaced) != ""
  {
    if |parts| == 1 { assert Spaced(parts[0], spaced[0]); }
  }

  /** A stretch of one port is printed as that port, any other as a range. */
  lemma OnlyRangesHaveDashes(r: Stretch)
    requires 0 <= r.first
    ensures '-' in Text(r) <==> r.first != r.last
  {
    DigitsAreDense(FormatUint(r.first));
  }

  /** So a printed list of ports is read back with blanks put in wherever they may stand. */
  lemma SpacedPortsRoundTrip(sorted: seq<int>, spaced: seq<string>)
    requires Increasing(sorted) && sorted != [] && AllPorts(sorted)
    requires |spaced| == |Stretches(sorted)|
    requires forall i :: 0 <= i < |spaced| ==> Spaced(Text(Stretches(sorted)[i]), spaced[i])
    requires spaced != []
    ensures ParseAllowedPorts(Commas(spaced)) == Only(Elements(sorted))
  {
    hide ParseAllowedPorts, Spaced, Stretches, Text, Commas, Increasing, AllPorts;
    var rs := Stretches(sorted);
    PortsRoundTrip(sorted);
    JoinIsCommas(rs);
    BlanksDoNotMatter(Texts(rs), spaced);
  }

  lemma {:induction false} JoinIsCommas(rs: seq<Stretch>)
    requires rs != []
    ensures Join(rs) == Commas(Texts(rs)) && Commas(Texts(rs)) != "" && forall p <- Texts(rs) :: ',' !in p
  {
    hide Text;
    var n := |rs| - 1;
    TextIsDense(rs[n]);
    if n == 0 {
      assert Texts(rs) == [Text(rs[0])];
      SplitJoin(rs);
    } else {
      JoinIsCommas(rs[..n]);
      assert Texts(rs)[..n] == Texts(rs[..n]) && Texts(rs)[n] == Text(rs[n]);
      assert Texts(rs) == Texts(rs)[..n] + [Text(rs[n])];
    }
  }
}
