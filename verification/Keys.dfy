/** Stream keys: rule and stream ID joined by a NUL, and cut apart again. */
module Keys {
  const NUL: char := '\0'

  function Key(rule: string, stream: string): string { rule + [NUL] + stream }

  /** strings.Cut at the first NUL: without one, the whole key is the rule. */
  function Cut(key: string): (parts: (string, string)) {
    if key == [] then ([], [])
    else if key[0] == NUL then ([], key[1..])
    else var rest := Cut(key[1..]); ([key[0]] + rest.0, rest.1)
  }

  lemma KeyHasNul(rule: string, stream: string)
    ensures NUL in Key(rule, stream)
  {
    assert Key(rule, stream)[|rule|] == NUL;
  }

  /** Cutting gives the two IDs back exactly when the rule contains no NUL. */
  lemma {:induction false} CutInverts(rule: string, stream: string)
    ensures Cut(Key(rule, stream)) == (rule, stream) <==> NUL !in rule
  {
    var key := Key(rule, stream);
    if rule == [] {
      assert key[0] == NUL && key[1..] == stream;
    } else if rule[0] == NUL {
      assert key[0] == NUL;
    } else {
      assert key[1..] == Key(rule[1..], stream) && key[0] == rule[0];
      CutInverts(rule[1..], stream);
      assert rule == [rule[0]] + rule[1..];
      var rest := Cut(key[1..]);
      assert Cut(key).0 == [rule[0]] + rest.0;
      assert Cut(key).0 == rule <==> rest.0 == rule[1..] by {
        assert Cut(key).0[1..] == rest.0;
      }
    }
  }

  /** Whatever the IDs, joining the cut parts gives the same key. */
  lemma {:induction false} JoinCut(key: string)
    requires NUL in key
    ensures Key(Cut(key).0, Cut(key).1) == key
  {
    if key[0] == NUL {
      assert key == [] + [NUL] + key[1..];
    } else {
      JoinCut(key[1..]);
      assert key == [key[0]] + key[1..];
      var rest := Cut(key[1..]);
      assert ([key[0]] + rest.0) + [NUL] + rest.1 == [key[0]] + (rest.0 + [NUL] + rest.1);
    }
  }

  /** Streams of rules without NUL have different keys. */
  lemma KeyInjective(rule: string, stream: string, rule2: string, stream2: string)
    requires NUL !in rule && NUL !in rule2 && Key(rule, stream) == Key(rule2, stream2)
    ensures rule == rule2 && stream == stream2
  {
    CutInverts(rule, stream);
    CutInverts(rule2, stream2);
  }
}
