/**
 * `formatarTelefone`, the Brazilian phone mask shared by the staff page and
 * the student form: keep the digits, then lay out at most eleven of them as
 * `(dd) dddd-dddd` or `(dd) ddddd-dddd`.
 */
module Telefone {
  import opened Wrappers
  import Text

  /** The mask over a string of digits `n`. */
  function Layout(n: string): (r: string)
    ensures r != [] && r[0] == '('
  {
    if |n| <= 2 then "(" + n
    else if |n| <= 6 then "(" + n[..2] + ") " + n[2..]
    else if |n| <= 10 then "(" + n[..2] + ") " + n[2..6] + "-" + n[6..]
    else "(" + n[..2] + ") " + n[2..7] + "-" + n[7..11]
  }

  /** `formatarTelefone(valor)`: "" for a missing or empty value, else the mask over its digits. */
  function Formatar(valor: Option<string>): (r: string)
    ensures r == [] <==> valor.None? || valor.value == []
  {
    if valor.None? || valor.value == [] then "" else Layout(Text.Digits(valor.value))
  }

  function Min(a: int, b: int): int
  {
    if a <= b then a else b
  }

  /** Punctuation followed by digits contributes just the digits. */
  lemma DigitsAfterPunctuation(p: string, x: string)
    requires Text.Digits(p) == [] && Text.AllDigits(x)
    ensures Text.Digits(p + x) == x
  {
    Text.DigitsAppend(p, x);
    Text.DigitsOfDigits(x);
  }

  /** Two punctuated groups keep their digits, in order. */
  lemma Groups(a: string, b: string, x: string, y: string)
    requires Text.Digits(a) == x && Text.Digits(b) == y
    ensures Text.Digits(a + b) == x + y
  {
    Text.DigitsAppend(a, b);
  }

  lemma PunctuationHasNoDigits()
    ensures Text.Digits("(") == [] && Text.Digits(") ") == [] && Text.Digits("-") == []
  {
    assert ") "[1..] == " ";
    assert " "[1..] == [];
    assert "("[1..] == [];
    assert "-"[1..] == [];
  }

  lemma TwoGroups(x: string, y: string)
    requires Text.AllDigits(x) && Text.AllDigits(y)
    ensures Text.Digits("(" + x + ") " + y) == x + y
  {
    PunctuationHasNoDigits();
    var a := "(" + x;
    var b := ") " + y;
    DigitsAfterPunctuation("(", x);
    DigitsAfterPunctuation(") ", y);
    Groups(a, b, x, y);
    assert "(" + x + ") " + y == a + b;
  }

  lemma ThreeGroups(x: string, y: string, z: string)
    requires Text.AllDigits(x) && Text.AllDigits(y) && Text.AllDigits(z)
    ensures Text.Digits("(" + x + ") " + y + "-" + z) == x + y + z
  {
    var a := "(" + x + ") " + y;
    TwoGroups(x, y);
    DashGroup(z);
    Joined(a, "-" + z, "(" + x + ") " + y + "-" + z, x + y, z);
  }

  /** `Groups` for a string already known to be the two groups side by side. */
  lemma Joined(a: string, b: string, s: string, x: string, y: string)
    requires s == a + b && Text.Digits(a) == x && Text.Digits(b) == y
    ensures Text.Digits(s) == x + y
  {
    Groups(a, b, x, y);
  }

  lemma DashGroup(z: string)
    requires Text.AllDigits(z)
    ensures Text.Digits("-" + z) == z
  {
    PunctuationHasNoDigits();
    DigitsAfterPunctuation("-", z);
  }

  /** The digits of the mask are the first eleven digits it was given. */
  lemma LayoutDigits(n: string)
    requires Text.AllDigits(n)
    ensures Text.Digits(Layout(n)) == n[..Min(|n|, 11)]
  {
    if |n| <= 2 {
      DigitsAfterPunctuation("(", n);
      assert n[..|n|] == n;
    } else if |n| <= 6 {
      TwoGroups(n[..2], n[2..]);
      assert n[..2] + n[2..] == n[..|n|];
    } else if |n| <= 10 {
      ThreeGroups(n[..2], n[2..6], n[6..]);
      assert n[..2] + n[2..6] + n[6..] == n[..|n|];
    } else {
      ThreeGroups(n[..2], n[2..7], n[7..11]);
      assert n[..2] + n[2..7] + n[7..11] == n[..11];
    }
  }

  /** Extra digits are dropped: the output's digits are the input's first eleven. */
  lemma FormatarKeepsDigits(valor: string)
    requires valor != []
    ensures Text.Digits(Formatar(Some(valor))) == Text.Digits(valor)[..Min(|Text.Digits(valor)|, 11)]
  {
    LayoutDigits(Text.Digits(valor));
  }

  /** Formatting an already formatted value returns it unchanged. */
  lemma FormatarIdempotent(valor: Option<string>)
    ensures Formatar(Some(Formatar(valor))) == Formatar(valor)
  {
    if valor.Some? && valor.value != [] {
      var n := Text.Digits(valor.value);
      LayoutDigits(n);
      var m := n[..Min(|n|, 11)];
      assert Text.Digits(Layout(n)) == m;
      if |n| > 11 {
        assert m[..2] == n[..2] && m[2..7] == n[2..7] && m[7..11] == n[7..11];
      } else {
        assert m == n;
      }
    }
  }
}
