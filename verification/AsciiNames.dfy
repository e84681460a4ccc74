// Comparing names the way SQLite and `column_index` do: ignoring the case of ASCII letters only.
module AsciiNames {
  function Lower(c: char): char {
    if 'A' <= c <= 'Z' then c - 'A' + 'a' else c
  }

  predicate SameName(a: string, b: string) {
    |a| == |b| && forall i | 0 <= i < |a| :: Lower(a[i]) == Lower(b[i])
  }

  lemma SameNameReflexive(name: string)
    ensures SameName(name, name)
  {
  }

  /** The letter of the other case, 32 places away. */
  predicate OtherCase(a: char, b: char) {
    || ('A' <= a <= 'Z' && b as int == a as int + 32)
    || ('A' <= b <= 'Z' && a as int == b as int + 32)
  }

  /** Two names match exactly when they differ at most in the case of ASCII letters. */
  lemma SameNameExactly(a: string, b: string)
    ensures SameName(a, b) <==> |a| == |b| && forall i | 0 <= i < |a| :: a[i] == b[i] || OtherCase(a[i], b[i])
  {
    forall i | 0 <= i < |a| && i < |b|
      ensures Lower(a[i]) == Lower(b[i]) <==> a[i] == b[i] || OtherCase(a[i], b[i])
    {
      LowerExactly(a[i], b[i]);
    }
  }

  lemma LowerExactly(a: char, b: char)
    ensures Lower(a) == Lower(b) <==> a == b || OtherCase(a, b)
  {
  }
}
