/** What the source asks of text: whether anything is left after stripping white space, and its order. */
module Text {
  import opened Sorting

  predicate Whitespace(c: char) {
    c == ' ' || c == '\t' || c == '\n' || c == '\r' || c == '\U{0B}' || c == '\U{0C}'
  }

  predicate Blank(s: string) {
    forall i | 0 <= i < |s| :: Whitespace(s[i])
  }

  /** What is left once the white space at the front is gone. */
  function Stripped(s: string): string {
    if s != [] && s[0] in {' ', '\t', '\n', '\r', '\U{0B}', '\U{0C}'} then Stripped(s[1..]) else s
  }

  /** Text is blank exactly when stripping leaves nothing. */
  lemma {:induction false} BlankIsStrippedToNothing(s: string)
    ensures Blank(s) <==> Stripped(s) == ""
  {
    if s == [] {
    } else {
      BlankIsStrippedToNothing(s[1..]);
      assert forall i | 1 <= i < |s| :: s[i] == s[1..][i - 1];
      assert forall i | 0 <= i < |s| - 1 :: s[1..][i] == s[i + 1];
    }
  }

  /** Lexicographic order by code point. */
  predicate TextLe(a: string, b: string) {
    a == [] || (b != [] && (a[0] < b[0] || (a[0] == b[0] && TextLe(a[1..], b[1..]))))
  }

  lemma {:induction false} TextLeTotal(a: string, b: string)
    ensures TextLe(a, b) || TextLe(b, a)
    ensures TextLe(a, b) && TextLe(b, a) ==> a == b
  {
    if a != [] && b != [] {
      TextLeTotal(a[1..], b[1..]);
      assert a == [a[0]] + a[1..] && b == [b[0]] + b[1..];
    }
  }

  lemma {:induction false} TextLeTransitive(a: string, b: string, c: string)
    requires TextLe(a, b) && TextLe(b, c)
    ensures TextLe(a, c)
  {
    if a == [] {
    } else {
      if a[0] == b[0] == c[0] {
        TextLeTransitive(a[1..], b[1..], c[1..]);
      }
    }
  }

  lemma TextOrderIsTotal()
    ensures TotalOrder(TextLe)
  {
    forall a, b
      ensures TextLe(a, b) || TextLe(b, a)
      ensures TextLe(a, b) && TextLe(b, a) ==> a == b
    {
      TextLeTotal(a, b);
    }
    forall a, b, c | TextLe(a, b) && TextLe(b, c)
      ensures TextLe(a, c)
    {
      TextLeTransitive(a, b, c);
    }
  }

  /** `a` comes before `b` at the first character where they differ, or is the beginning of `b`. */
  ghost predicate Precedes(a: string, b: string) {
    a <= b || exists k :: 0 <= k < |a| && k < |b| && a[..k] == b[..k] && a[k] < b[k]
  }

  lemma {:induction false} OrderIsByFirstDifference(a: string, b: string)
    ensures TextLe(a, b) <==> Precedes(a, b)
  {
    if a != [] && b != [] {
      OrderIsByFirstDifference(a[1..], b[1..]);
      if a[0] == b[0] {
        if Precedes(a[1..], b[1..]) && !(a[1..] <= b[1..]) {
          var k :| 0 <= k < |a[1..]| && k < |b[1..]| && a[1..][..k] == b[1..][..k] && a[1..][k] < b[1..][k];
          assert a[..k + 1] == [a[0]] + a[1..][..k] && b[..k + 1] == [b[0]] + b[1..][..k];
          assert a[k + 1] < b[k + 1];
        }
        if Precedes(a, b) && !(a <= b) {
          var k :| 0 <= k < |a| && k < |b| && a[..k] == b[..k] && a[k] < b[k];
          assert k > 0;
          assert a[1..][..k - 1] == a[..k][1..] && b[1..][..k - 1] == b[..k][1..];
          assert a[1..][k - 1] < b[1..][k - 1];
        }
      } else {
        assert a[..0] == b[..0];
      }
    }
  }
}
