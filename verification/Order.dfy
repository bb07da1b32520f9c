/** The order of strings by their characters. */
module Order {

  /** The dictionary order of two strings. */
  predicate StrLess(a: string, b: string) {
    b != "" && (a == "" || a[0] < b[0] || (a[0] == b[0] && StrLess(a[1..], b[1..])))
  }

  lemma {:induction false} StrOrdered(a: string, b: string)
    ensures StrLess(a, b) || a == b || StrLess(b, a)
    ensures !(StrLess(a, b) && StrLess(b, a)) && !StrLess(a, a)
  {
    if a != "" && b != "" && a[0] == b[0] {
      StrOrdered(a[1..], b[1..]);
      assert a == [a[0]] + a[1..] && b == [b[0]] + b[1..];
    }
    if a != "" { StrIrreflexive(a); }
  }

  lemma {:induction false} StrIrreflexive(a: string)
    ensures !StrLess(a, a)
  {
    if a != "" { StrIrreflexive(a[1..]); }
  }

  lemma {:induction false} StrTransitive(a: string, b: string, c: string)
    requires StrLess(a, b) && StrLess(b, c)
    ensures StrLess(a, c)
  {
    if a != "" && a[0] == b[0] == c[0] { StrTransitive(a[1..], b[1..], c[1..]); }
  }

  /** The strict order facts of three strings, in one place for lexicographic keys. */
  lemma ThreeStrings(a: string, b: string, c: string)
    ensures StrLess(a, b) || a == b || StrLess(b, a)
    ensures StrLess(b, c) || b == c || StrLess(c, b)
    ensures !(StrLess(a, b) && StrLess(b, a)) && !(StrLess(b, c) && StrLess(c, b)) && !(StrLess(a, c) && StrLess(c, a))
    ensures !StrLess(a, a)
    ensures StrLess(a, b) && StrLess(b, c) ==> StrLess(a, c)
  {
    StrOrdered(a, b);
    StrOrdered(b, c);
    StrOrdered(a, c);
    if StrLess(a, b) && StrLess(b, c) { StrTransitive(a, b, c); }
  }

  lemma FirstsAgree(a: string, b: string, i: nat)
    requires i <= |a| && i <= |b| && a[..i] == b[..i]
    ensures i > 0 ==> a[0] == b[0]
  {
    if i > 0 { assert a[..i][0] == b[..i][0]; }
  }

  /** The dictionary order: a proper prefix comes first, otherwise the first difference decides. */
  lemma {:induction false} StrLessMeans(a: string, b: string)
    ensures StrLess(a, b) <==>
      || a < b
      || exists i :: 0 <= i < |a| && i < |b| && a[i] < b[i] && a[..i] == b[..i]
  {
    if a != "" && b != "" {
      if a[0] == b[0] {
        StrLessMeans(a[1..], b[1..]);
        assert a == [a[0]] + a[1..] && b == [b[0]] + b[1..];
        if a[1..] < b[1..] { assert a < b; }
        if i :| 0 <= i < |a[1..]| && i < |b[1..]| && a[1..][i] < b[1..][i] && a[1..][..i] == b[1..][..i] {
          var next := i + 1;
          assert a[next] < b[next] && a[..next] == [a[0]] + a[1..][..i] == b[..next];
        }
        if i :| 0 <= i < |a| && i < |b| && a[i] < b[i] && a[..i] == b[..i] {
          assert i > 0 && a[1..][i - 1] < b[1..][i - 1];
          assert a[1..][..i - 1] == a[..i][1..] == b[..i][1..] == b[1..][..i - 1];
        }
        if a < b { assert a[1..] == b[1..][..|a| - 1]; }
      } else if a[0] < b[0] {
        assert a[..0] == b[..0];
      } else {
        forall i | 0 <= i < |a| && i < |b| && a[..i] == b[..i] ensures a[i] >= b[i] {
          FirstsAgree(a, b, i);
        }
      }
    }
  }
}
