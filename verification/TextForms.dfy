/** How texts are written down: blanks around tokens, and which characters a numeral has. */
module TextForms {
  import opened Common
  import opened CText
  import opened Numerals

  predicate AllBlank(s: string) {
    forall i | 0 <= i < |s| :: Blank(s[i])
  }

  predicate Solid(s: string) {
    s != "" && !Blank(s[0]) && !Blank(s[|s| - 1])
  }

  lemma {:induction false} TrimLeftBlanks(a: string, s: string)
    requires AllBlank(a) && s != "" && !Blank(s[0])
    ensures TrimLeft(a + s) == s
  {
    if a == "" {
      assert a + s == s;
    } else {
      assert (a + s)[1..] == a[1..] + s;
      TrimLeftBlanks(a[1..], s);
    }
  }

  lemma {:induction false} TrimRightBlanks(s: string, b: string)
    requires AllBlank(b) && s != "" && !Blank(s[|s| - 1])
    ensures TrimRight(s + b) == s
  {
    if b == "" {
      assert s + b == s;
    } else {
      assert (s + b)[..|s + b| - 1] == s + b[..|b| - 1];
      TrimRightBlanks(s, b[..|b| - 1]);
    }
  }

  lemma TrimBlanks(a: string, s: string, b: string)
    requires AllBlank(a) && AllBlank(b) && Solid(s)
    ensures Trim(a + s + b) == s
  {
    assert a + s + b == a + (s + b);
    TrimLeftBlanks(a, s + b);
    TrimRightBlanks(s, b);
  }

  lemma {:induction false} TrimAllBlank(s: string)
    requires AllBlank(s)
    ensures TrimLeft(s) == ""
  {
    if s != "" { TrimAllBlank(s[1..]); }
  }

  predicate NumeralChar(c: char) {
    Digit(c, 16).Some? || c == 'x' || c == 'X'
  }

  lemma NumberChars(s: string)
    requires Unsigned(s).Some?
    ensures s != "" && forall i | 0 <= i < |s| :: NumeralChar(s[i])
  {
    if IsHex(s) {
      forall i | 0 <= i < |s| ensures NumeralChar(s[i]) {
        if i >= 2 { assert s[2..][i - 2] == s[i]; }
      }
    }
  }

  lemma FindAt(a: string, b: string, c: char)
    requires c !in a
    ensures Find(a + [c] + b, c) == |a|
  {
    var s := a + [c] + b;
    assert s[|a|] == c;
    assert forall k | 0 <= k < |a| :: s[k] == a[k];
  }
}
