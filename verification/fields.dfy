// Splitting text into fields around blanks and joining fields with a space.
module FieldLists {

  /** The fields of `s`, where `current` is the field that is being read. */
  function FieldsFrom<T>(s: seq<T>, blank: T -> bool, current: seq<T>): seq<seq<T>>
    decreases |s|
  {
    if s == [] then Ended(current)
    else if blank(s[0]) then Ended(current) + FieldsFrom(s[1..], blank, [])
    else FieldsFrom(s[1..], blank, current + [s[0]])
  }

  function Ended<T>(current: seq<T>): seq<seq<T>> { if |current| == 0 then [] else [current] }

  function Fields<T>(s: seq<T>, blank: T -> bool): seq<seq<T>> { FieldsFrom(s, blank, []) }

  function Join<T>(fields: seq<seq<T>>, space: T): seq<T> {
    if |fields| == 0 then []
    else if |fields| == 1 then fields[0]
    else fields[0] + [space] + Join(fields[1..], space)
  }

  predicate Solid<T>(field: seq<T>, blank: T -> bool) {
    |field| > 0 && forall i :: 0 <= i < |field| ==> !blank(field[i])
  }

  predicate AllSolid<T>(fields: seq<seq<T>>, blank: T -> bool) {
    forall i :: 0 <= i < |fields| ==> Solid(fields[i], blank)
  }

  lemma {:induction false} FieldsAreSolid<T>(s: seq<T>, blank: T -> bool, current: seq<T>)
    requires |current| > 0 ==> Solid(current, blank)
    ensures AllSolid(FieldsFrom(s, blank, current), blank)
    decreases |s|
  {
    if s != [] {
      if blank(s[0]) {
        FieldsAreSolid(s[1..], blank, []);
      } else {
        FieldsAreSolid(s[1..], blank, current + [s[0]]);
      }
    }
  }

  lemma {:induction false} FieldsOfSolid<T>(field: seq<T>, blank: T -> bool, current: seq<T>, rest: seq<T>)
    requires forall i :: 0 <= i < |field| ==> !blank(field[i])
    ensures FieldsFrom(field + rest, blank, current) == FieldsFrom(rest, blank, current + field)
    decreases |field|
  {
    if field == [] {
      assert field + rest == rest && current + field == current;
    } else {
      FieldsOfSolid(field[1..], blank, current + [field[0]], rest);
      assert (field + rest)[1..] == field[1..] + rest;
      assert current + [field[0]] + field[1..] == current + field;
    }
  }

  /** Fields that are joined with a blank are the fields of the result. */
  lemma {:induction false} FieldsOfJoin<T>(fields: seq<seq<T>>, blank: T -> bool, space: T)
    requires AllSolid(fields, blank) && blank(space)
    ensures Fields(Join(fields, space), blank) == fields
  {
    if |fields| == 1 {
      FieldsOfSolid(fields[0], blank, [], []);
      assert fields[0] + [] == fields[0] && [] + fields[0] == fields[0];
    } else if |fields| > 1 {
      var rest := [space] + Join(fields[1..], space);
      FieldsOfSolid(fields[0], blank, [], rest);
      assert fields[0] + rest == Join(fields, space) && [] + fields[0] == fields[0];
      assert rest[1..] == Join(fields[1..], space);
      FieldsOfJoin(fields[1..], blank, space);
    }
  }

  /** A blank at the end adds no field. */
  lemma {:induction false} FieldsBeforeBlank<T>(s: seq<T>, blank: T -> bool, current: seq<T>, end: T)
    requires blank(end)
    ensures FieldsFrom(s + [end], blank, current) == FieldsFrom(s, blank, current)
    decreases |s|
  {
    if s == [] {
      assert (s + [end])[1..] == [];
    } else {
      assert (s + [end])[1..] == s[1..] + [end];
      if blank(s[0]) {
        FieldsBeforeBlank(s[1..], blank, [], end);
      } else {
        FieldsBeforeBlank(s[1..], blank, current + [s[0]], end);
      }
    }
  }

  /** Without the blanks at either end. */
  function Trim<T>(s: seq<T>, blank: T -> bool): seq<T>
    decreases |s|
  {
    if s != [] && blank(s[0]) then Trim(s[1..], blank)
    else if s != [] && blank(s[|s| - 1]) then Trim(s[..|s| - 1], blank)
    else s
  }

  /** Blanks go at both ends and nothing else. */
  lemma {:induction false} TrimIs<T>(before: seq<T>, s: seq<T>, after: seq<T>, blank: T -> bool)
    requires forall i :: 0 <= i < |before| ==> blank(before[i])
    requires forall i :: 0 <= i < |after| ==> blank(after[i])
    requires s == [] || (!blank(s[0]) && !blank(s[|s| - 1]))
    ensures Trim(before + s + after, blank) == s
    decreases |before| + |after|
  {
    var whole := before + s + after;
    if before != [] {
      assert whole[1..] == before[1..] + s + after;
      TrimIs(before[1..], s, after, blank);
    } else if s == [] && after != [] {
      assert whole[1..] == after[1..] && whole[0] == after[0];
      assert [] + s + after[1..] == after[1..];
      TrimIs([], s, after[1..], blank);
    } else if after != [] {
      assert whole[0] == s[0] && whole[|whole| - 1] == after[|after| - 1];
      assert whole[..|whole| - 1] == [] + s + after[..|after| - 1];
      TrimIs([], s, after[..|after| - 1], blank);
    } else {
      assert whole == s;
    }
  }

  /** A blank anywhere separates the fields before it from those behind it. */
  lemma {:induction false} FieldsAroundBlank<T>(a: seq<T>, space: T, b: seq<T>, blank: T -> bool, current: seq<T>)
    requires blank(space)
    ensures FieldsFrom(a + [space] + b, blank, current) == FieldsFrom(a, blank, current) + Fields(b, blank)
    decreases |a|
  {
    var whole := a + [space] + b;
    if a == [] {
      assert whole[1..] == b;
    } else {
      assert whole[1..] == a[1..] + [space] + b;
      if blank(a[0]) {
        FieldsAroundBlank(a[1..], space, b, blank, []);
        assert Ended(current) + (FieldsFrom(a[1..], blank, []) + Fields(b, blank)) == Ended(current) + FieldsFrom(a[1..], blank, []) + Fields(b, blank);
      } else {
        FieldsAroundBlank(a[1..], space, b, blank, current + [a[0]]);
      }
    }
  }

  lemma {:induction false} TrimTwice<T>(s: seq<T>, blank: T -> bool)
    ensures Trim(Trim(s, blank), blank) == Trim(s, blank)
    decreases |s|
  {
    if s != [] && blank(s[0]) {
      TrimTwice(s[1..], blank);
    } else if s != [] && blank(s[|s| - 1]) {
      TrimTwice(s[..|s| - 1], blank);
    }
  }

  lemma {:induction false} JoinOneMore<T>(fields: seq<seq<T>>, last: seq<T>, space: T)
    requires |fields| > 0
    ensures Join(fields + [last], space) == Join(fields, space) + [space] + last
  {
    assert (fields + [last])[1..] == fields[1..] + [last];
    if |fields| == 1 {
      assert Join([last], space) == last;
      assert fields[1..] + [last] == [last];
    } else {
      JoinOneMore(fields[1..], last, space);
      assert fields[0] + [space] + (Join(fields[1..], space) + [space] + last)
          == fields[0] + [space] + Join(fields[1..], space) + [space] + last;
    }
  }

  lemma JoinStartsSolid<T>(fields: seq<seq<T>>, blank: T -> bool, space: T)
    requires |fields| > 0 && AllSolid(fields, blank)
    ensures |Join(fields, space)| > 0 && !blank(Join(fields, space)[0])
  {
    assert Solid(fields[0], blank);
    assert Join(fields, space)[0] == fields[0][0];
  }
}
