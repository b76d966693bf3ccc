/** Small shared vocabulary: optional values and the code-point order on strings. */
module Prelude {

  datatype Option<+T> = None | Some(value: T) {
    predicate IsFailure() {
      None?
    }

    function PropagateFailure<U>(): Option<U>
      requires None?
    {
      None
    }

    function Extract(): T
      requires Some?
    {
      value
    }

    function GetOr(default: T): T {
      match this
      case Some(v) => v
      case None => default
    }
  }

  /** Python's `<` on strings: lexicographic by code point. */
  predicate StrLt(a: string, b: string) {
    if b == "" then false
    else if a == "" then true
    else if a[0] != b[0] then a[0] < b[0]
    else StrLt(a[1..], b[1..])
  }

  lemma {:induction false} StrLtTotal(a: string, b: string)
    ensures a != b ==> StrLt(a, b) || StrLt(b, a)
    ensures !(StrLt(a, b) && StrLt(b, a))
    ensures !StrLt(a, a)
  {
    if a != "" {
      if b != "" && a[0] == b[0] {
        StrLtTotal(a[1..], b[1..]);
        assert a == [a[0]] + a[1..] && b == [b[0]] + b[1..];
      } else {
        StrLtTotal(a[1..], a[1..]);
      }
    }
  }

  lemma {:induction false} StrLtTransitive(a: string, b: string, c: string)
    requires StrLt(a, b) && StrLt(b, c)
    ensures StrLt(a, c)
  {
    if a != "" && b != "" && c != "" && a[0] == b[0] == c[0] {
      StrLtTransitive(a[1..], b[1..], c[1..]);
    }
  }

  // ---- sorted lists of names -----------------------------------------------

  predicate Ascending(names: seq<string>) {
    forall i, j :: 0 <= i < j < |names| ==> StrLt(names[i], names[j])
  }

  function Insert(names: seq<string>, name: string): seq<string> {
    if names == [] || StrLt(name, names[0]) then [name] + names
    else [names[0]] + Insert(names[1..], name)
  }

  lemma {:induction false} InsertMembers(names: seq<string>, name: string)
    ensures forall n :: n in Insert(names, name) <==> n == name || n in names
  {
    if names != [] && !StrLt(name, names[0]) {
      InsertMembers(names[1..], name);
      assert names == [names[0]] + names[1..];
    }
  }

  /** Inserting a new name keeps a list sorted. */
  lemma {:induction false} InsertKeepsAscending(names: seq<string>, name: string)
    requires Ascending(names) && name !in names
    ensures Ascending(Insert(names, name))
  {
    if names == [] {
    } else if StrLt(name, names[0]) {
      forall j | 0 <= j < |names|
        ensures StrLt(name, names[j])
      {
        if j > 0 {
          StrLtTransitive(name, names[0], names[j]);
        }
      }
    } else {
      var rest := Insert(names[1..], name);
      InsertKeepsAscending(names[1..], name);
      InsertMembers(names[1..], name);
      StrLtTotal(name, names[0]);
      forall j | 0 <= j < |rest|
        ensures StrLt(names[0], rest[j])
      {
        assert rest[j] in rest;
        assert rest[j] == name || rest[j] in names[1..];
      }
    }
  }

  /** A sorted list of distinct names is determined by its members. */
  lemma {:induction false} AscendingUnique(a: seq<string>, b: seq<string>)
    requires Ascending(a) && Ascending(b) && forall n :: n in a <==> n in b
    ensures a == b
  {
    assert a != [] ==> a[0] in b;
    assert b != [] ==> b[0] in a;
    if a != [] {
      SameHead(a, b);
      AscendingTail(a);
      AscendingTail(b);
      AscendingUnique(a[1..], b[1..]);
    }
  }

  /** Every finite set of names has a sorted list. */
  lemma {:induction false} SortedListExists(s: set<string>) returns (names: seq<string>)
    ensures Ascending(names) && forall n :: n in names <==> n in s
  {
    names := [];
    if s != {} {
      var name :| name in s;
      var rest := SortedListExists(s - {name});
      InsertKeepsAscending(rest, name);
      InsertMembers(rest, name);
      names := Insert(rest, name);
    }
  }

  lemma AscendingTail(a: seq<string>)
    requires Ascending(a) && a != []
    ensures Ascending(a[1..])
    ensures forall n :: n in a[1..] <==> n in a && n != a[0]
  {
    forall i | 0 < i < |a|
      ensures a[i] != a[0]
    {
      StrLtTotal(a[0], a[i]);
    }
    assert a == [a[0]] + a[1..];
  }

  lemma SameHead(a: seq<string>, b: seq<string>)
    requires Ascending(a) && Ascending(b) && a != [] && b != []
    requires a[0] in b && b[0] in a
    ensures a[0] == b[0]
  {
    if a[0] != b[0] {
      StrLtTotal(a[0], b[0]);
    }
  }
}
