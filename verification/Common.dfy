/** Vocabulary shared by every component: optional values and the byte-wise order on names. */
module Common {

  datatype Option<+T> = None | Some(value: T)

  function Min(a: int, b: int): int { if a < b then a else b }

  function Max(a: int, b: int): int { if a < b then b else a }

  // Lexicographic order on names, as Go's `<` on strings.  (Dafny's `<` on sequences is
  // "proper prefix", which is a different relation.)
  predicate Before(a: string, b: string) {
    if b == "" then false
    else if a == "" then true
    else if a[0] != b[0] then a[0] < b[0]
    else Before(a[1..], b[1..])
  }

  lemma {:induction false} BeforeIrreflexive(a: string)
    ensures !Before(a, a)
  {
    if a != "" { BeforeIrreflexive(a[1..]); }
  }

  lemma {:induction false} BeforeTransitive(a: string, b: string, c: string)
    requires Before(a, b) && Before(b, c)
    ensures Before(a, c)
  {
    if a != "" && a[0] == b[0] == c[0] { BeforeTransitive(a[1..], b[1..], c[1..]); }
  }

  lemma {:induction false} BeforeTotal(a: string, b: string)
    ensures a == b || Before(a, b) || Before(b, a)
  {
    if a != "" && b != "" && a[0] == b[0] {
      BeforeTotal(a[1..], b[1..]);
      assert a == [a[0]] + a[1..] && b == [b[0]] + b[1..];
    }
  }

  // The order the operator breaks ties with everywhere: creation time first, then name.
  predicate Earlier(createdA: int, nameA: string, createdB: int, nameB: string) {
    createdA < createdB || (createdA == createdB && Before(nameA, nameB))
  }

  lemma EarlierIsStrictTotalOrder(ca: int, a: string, cb: int, b: string, cc: int, c: string)
    ensures !Earlier(ca, a, ca, a)
    ensures Earlier(ca, a, cb, b) && Earlier(cb, b, cc, c) ==> Earlier(ca, a, cc, c)
    ensures a != b ==> Earlier(ca, a, cb, b) || Earlier(cb, b, ca, a)
    ensures Earlier(ca, a, cb, b) ==> !Earlier(cb, b, ca, a)
  {
    BeforeIrreflexive(a);
    BeforeTotal(a, b);
    if Before(a, b) && Before(b, c) { BeforeTransitive(a, b, c); }
    if Before(a, b) && Before(b, a) { BeforeTransitive(a, b, a); }
  }
}
