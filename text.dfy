/** Python's `str.split(sep)` with an explicit one-character separator, as used
    on the Authorization header (acl/get_acl.py) and on the comma lists of the
    query parameters (query_od_parameters.py). */
module Text {

  /** `s.split(sep)`: every occurrence of `sep` ends a field, so two adjacent
      separators, or one at either end, give an empty field; the result always
      has at least one field and no field contains the separator. */
  function Split(s: string, sep: char): (fields: seq<string>)
    ensures |fields| >= 1
    ensures forall i :: 0 <= i < |fields| ==> sep !in fields[i]
  {
    if |s| == 0 then [""]
    else
      var rest := Split(s[1..], sep);
      if s[0] == sep then [""] + rest
      else [[s[0]] + rest[0]] + rest[1..]
  }

  /** `sep.join(fields)`, the inverse of `Split`. */
  function Join(fields: seq<string>, sep: char): string
  {
    if |fields| == 0 then ""
    else if |fields| == 1 then fields[0]
    else fields[0] + [sep] + Join(fields[1..], sep)
  }

  /** Joining the fields of a split gives back the original text. */
  lemma {:induction false} JoinSplit(s: string, sep: char)
    ensures Join(Split(s, sep), sep) == s
  {
    if |s| > 0 {
      var rest := Split(s[1..], sep);
      JoinSplit(s[1..], sep);
      if s[0] == sep {
        assert Split(s, sep) == [""] + rest;
        assert Join([""] + rest, sep) == "" + [sep] + Join(rest, sep);
        assert s == [sep] + s[1..];
      } else if |rest| == 1 {
        assert Split(s, sep) == [[s[0]] + rest[0]];
        assert s == [s[0]] + s[1..];
      } else {
        var fields := Split(s, sep);
        assert fields == [[s[0]] + rest[0]] + rest[1..];
        assert fields[1..] == rest[1..];
        assert Join(rest, sep) == rest[0] + [sep] + Join(rest[1..], sep);
        assert s == [s[0]] + s[1..];
      }
    }
  }

  /** Text without the separator is a single field. */
  lemma {:induction false} SplitWithoutSeparator(f: string, sep: char)
    requires sep !in f
    ensures Split(f, sep) == [f]
  {
    if |f| > 0 {
      SplitWithoutSeparator(f[1..], sep);
      assert [f[0]] + f[1..] == f;
    }
  }

  /** A separator-free prefix followed by the separator becomes the first field. */
  lemma {:induction false} SplitAfterField(f: string, sep: char, t: string)
    requires sep !in f
    ensures Split(f + [sep] + t, sep) == [f] + Split(t, sep)
  {
    var s := f + [sep] + t;
    if |f| == 0 {
      assert s[0] == sep && s[1..] == t;
    } else {
      assert s[0] == f[0] && s[1..] == f[1..] + [sep] + t;
      SplitAfterField(f[1..], sep, t);
      assert [f[0]] + f[1..] == f;
    }
  }

  /** Splitting a join of separator-free fields gives back the fields. */
  lemma {:induction false} SplitJoin(fields: seq<string>, sep: char)
    requires |fields| >= 1
    requires forall i :: 0 <= i < |fields| ==> sep !in fields[i]
    ensures Split(Join(fields, sep), sep) == fields
  {
    if |fields| == 1 {
      SplitWithoutSeparator(fields[0], sep);
    } else {
      SplitJoin(fields[1..], sep);
      SplitAfterField(fields[0], sep, Join(fields[1..], sep));
      assert [fields[0]] + fields[1..] == fields;
    }
  }

  /** A split has a second field exactly when the separator occurs. */
  lemma {:induction false} SplitHasSecondField(s: string, sep: char)
    ensures |Split(s, sep)| >= 2 <==> sep in s
  {
    if |s| > 0 {
      SplitHasSecondField(s[1..], sep);
      assert sep in s <==> s[0] == sep || sep in s[1..] by {
        assert s == [s[0]] + s[1..];
      }
    }
  }

  /** What follows the second field: nothing, or the separator and the rest. */
  function AfterSecondField(fields: seq<string>, sep: char): string
  {
    if |fields| <= 2 then "" else [sep] + Join(fields[2..], sep)
  }

  /** When the separator occurs, the text is the first field, the separator,
      the second field, and then either nothing or the separator again. */
  lemma FirstTwoFields(s: string, sep: char)
    requires sep in s
    ensures var f := Split(s, sep);
      && |f| >= 2
      && s == f[0] + [sep] + (f[1] + AfterSecondField(f, sep))
      && (AfterSecondField(f, sep) == [] || AfterSecondField(f, sep)[0] == sep)
  {
    var f := Split(s, sep);
    SplitHasSecondField(s, sep);
    JoinSplit(s, sep);
    assert Join(f, sep) == f[0] + [sep] + Join(f[1..], sep);
    assert f[1..][0] == f[1] && f[1..][1..] == f[2..];
  }

  /** The position of the first occurrence of `c` in `s`. */
  function IndexOf(s: string, c: char): (i: nat)
    requires c in s
    ensures i < |s| && s[i] == c && c !in s[..i]
  {
    if s[0] == c then 0
    else
      assert c in s[1..] by {
        assert s == [s[0]] + s[1..];
      }
      var j := IndexOf(s[1..], c);
      assert s[..j + 1] == [s[0]] + s[1..][..j];
      j + 1
  }

  /** The text after the first occurrence of `c`, up to the next one or the end. */
  function FieldAfterFirst(s: string, c: char): string
    requires c in s
  {
    var rest := s[IndexOf(s, c) + 1..];
    if c in rest then rest[..IndexOf(rest, c)] else rest
  }

  lemma IndexOfAfterField(s: string, c: char, a: string, b: string)
    requires s == a + [c] + b && c !in a
    ensures c in s && IndexOf(s, c) == |a| && s[|a| + 1..] == b
  {
    assert s[|a|] == c;
    assert s[|a| + 1..] == b;
  }

  /** The field between the first separator and the next one or the end. */
  lemma FieldAfterFirstOf(s: string, sep: char, a: string, b: string, post: string)
    requires s == a + [sep] + (b + post) && sep !in a && sep !in b && (post == [] || post[0] == sep)
    ensures sep in s && FieldAfterFirst(s, sep) == b
  {
    IndexOfAfterField(s, sep, a, b + post);
    if post != [] {
      IndexOfAfterField(b + post, sep, b, post[1..]);
      assert (b + post)[..|b|] == b;
    } else {
      assert b + post == b;
    }
  }

  /** The second field of a split is the text between the first and the
      second occurrence of the separator, or the end of the text. */
  lemma SecondFieldAfterFirstSeparator(s: string, sep: char)
    requires sep in s
    ensures |Split(s, sep)| >= 2 && Split(s, sep)[1] == FieldAfterFirst(s, sep)
  {
    var f := Split(s, sep);
    FirstTwoFields(s, sep);
    FieldAfterFirstOf(s, sep, f[0], f[1], AfterSecondField(f, sep));
  }
}
