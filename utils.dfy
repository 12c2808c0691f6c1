/** internal/utils/utils.go: linear search and pointer helpers. */
module Utils {
  import opened Wrappers

  /** `Contains`: an early-exit range loop looking for `e`. */
  method Contains<T(==)>(s: seq<T>, e: T) returns (found: bool)
    ensures found <==> e in s
    ensures s == [] ==> !found
  {
    var i := 0;
    while i < |s|
      invariant 0 <= i <= |s|
      invariant e !in s[..i]
    {
      if s[i] == e {
        return true;
      }
      i := i + 1;
    }
    return false;
  }

  /** `ContainsWhere`: an early-exit range loop looking for an element that
      satisfies `p` (the source's `predicate`). */
  method ContainsWhere<T>(s: seq<T>, p: T -> bool) returns (found: bool)
    ensures found <==> exists i :: 0 <= i < |s| && p(s[i])
    ensures s == [] ==> !found
  {
    var i := 0;
    while i < |s|
      invariant 0 <= i <= |s|
      invariant forall j :: 0 <= j < i ==> !p(s[j])
    {
      if p(s[i]) {
        return true;
      }
      i := i + 1;
    }
    return false;
  }

  /** What `Contains(s, e)` answers is what `ContainsWhere(s, x == e)` answers. */
  lemma ContainsIsContainsWhere<T>(s: seq<T>, e: T)
    ensures (e in s) <==> exists i :: 0 <= i < |s| && (x => x == e)(s[i])
  {
    if e in s {
      var i :| 0 <= i < |s| && s[i] == e;
      assert (x => x == e)(s[i]);
    }
  }

  /** `ToPointer`: a pointer to a copy of `value` (pointer identity is not
      modelled: a pointer is its pointee, nil is None). */
  function ToPointer<T>(value: T): (p: Option<T>)
    ensures p != None
  {
    Some(value)
  }

  /** `FromPointer`: the pointee, or the zero value of T for nil. Dafny has no
      zero value for a type parameter, so the caller supplies it. */
  function FromPointer<T>(p: Option<T>, zero: T): (r: T)
    ensures p == None ==> r == zero
    ensures p != None ==> r == p.value
  {
    if p.None? then zero else p.value
  }

  /** Reading back a pointer made by ToPointer gives the value it was made of. */
  lemma FromToPointer<T>(value: T, zero: T)
    ensures FromPointer(ToPointer(value), zero) == value
  {
  }
}
