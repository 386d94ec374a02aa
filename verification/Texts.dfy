/** Splitting texts. */
module Texts {
  import opened Common

  /** The pieces between separators; there is always at least one. */
  function Split(s: string, separator: char): (pieces: seq<string>)
    ensures |pieces| >= 1
  {
    if s == "" then [""]
    else
      var rest := Split(s[1..], separator);
      if s[0] == separator then [""] + rest else [[s[0]] + rest[0]] + rest[1..]
  }

  /** A piece ends at the first separator. */
  lemma {:induction false} SplitAt(a: string, separator: char, b: string)
    requires separator !in a
    ensures Split(a + ([separator] + b), separator) == [a] + Split(b, separator)
  {
    var s := a + ([separator] + b);
    if a == "" {
      assert s == [separator] + b && s[1..] == b;
    } else {
      assert s[1..] == a[1..] + ([separator] + b);
      SplitAt(a[1..], separator, b);
      assert a == [a[0]] + a[1..];
    }
  }

  lemma {:induction false} SplitWhole(a: string, separator: char)
    requires separator !in a
    ensures Split(a, separator) == [a]
  {
    if a != "" {
      SplitWhole(a[1..], separator);
      assert a == [a[0]] + a[1..];
    }
  }

  lemma {:induction false} SplitPiecesClean(s: string, separator: char, i: nat)
    requires i < |Split(s, separator)|
    ensures separator !in Split(s, separator)[i]
  {
    if s != "" {
      var rest := Split(s[1..], separator);
      if s[0] == separator {
        if i > 0 { SplitPiecesClean(s[1..], separator, i - 1); }
      } else {
        SplitPiecesClean(s[1..], separator, i);
      }
    }
  }
}
