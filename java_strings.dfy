/** Splitting a string at a one-character separator the way Java's
    `String.split` does for a literal separator, and joining pieces with one. */
module JavaStrings {

  /** Every piece of `s` between occurrences of `sep`, empty pieces included:
      one more piece than there are separators. */
  function Fields(s: string, sep: char): (r: seq<string>)
    ensures |r| >= 1
    ensures forall i :: 0 <= i < |r| ==> sep !in r[i]
  {
    if |s| == 0 then [""]
    else
      var rest := Fields(s[1..], sep);
      if s[0] == sep then [""] + rest
      else [[s[0]] + rest[0]] + rest[1..]
  }

  /** The pieces with every trailing empty piece removed. */
  function DropTrailingEmpty(parts: seq<string>): (r: seq<string>)
    ensures r <= parts
    ensures |r| > 0 ==> r[|r| - 1] != ""
    ensures forall i :: |r| <= i < |parts| ==> parts[i] == ""
  {
    if |parts| == 0 then []
    else if parts[|parts| - 1] == "" then DropTrailingEmpty(parts[..|parts| - 1])
    else parts
  }

  /** Java's split with limit 0: the whole string when the separator does not
      occur, otherwise the fields without the trailing empty ones (so a string
      of separators alone gives no piece at all). */
  function JavaSplit(s: string, sep: char): (r: seq<string>)
    ensures sep !in s ==> r == [s]
    ensures r <= Fields(s, sep)
    ensures sep in s ==> forall i :: |r| <= i < |Fields(s, sep)| ==> Fields(s, sep)[i] == ""
    ensures sep in s && |r| > 0 ==> r[|r| - 1] != ""
  {
    if sep !in s then FieldsPlain(s, sep); [s] else DropTrailingEmpty(Fields(s, sep))
  }

  /** The pieces with one separator between each two. */
  function Join(parts: seq<string>, sep: char): string
  {
    if |parts| == 0 then ""
    else if |parts| == 1 then parts[0]
    else parts[0] + [sep] + Join(parts[1..], sep)
  }

  /** Joining one more piece puts a single separator before it. */
  lemma {:induction false} JoinSnoc(parts: seq<string>, p: string, sep: char)
    ensures Join(parts + [p], sep) == if |parts| == 0 then p else Join(parts, sep) + [sep] + p
  {
    var q := parts + [p];
    if |parts| == 1 {
      assert q[1..] == [p];
    } else if |parts| > 1 {
      assert q[1..] == parts[1..] + [p];
      JoinSnoc(parts[1..], p, sep);
      var j := Join(parts[1..], sep);
      assert Join(q, sep) == parts[0] + [sep] + (j + [sep] + p);
      assert Join(parts, sep) == parts[0] + [sep] + j;
    }
  }

  /** A piece without the separator is a single field. */
  lemma {:induction false} FieldsPlain(p: string, sep: char)
    requires sep !in p
    ensures Fields(p, sep) == [p]
  {
    if |p| > 0 {
      FieldsPlain(p[1..], sep);
      assert [p[0]] + p[1..] == p;
    }
  }

  /** A separator-free piece followed by the separator is the first field. */
  lemma {:induction false} FieldsCons(p: string, t: string, sep: char)
    requires sep !in p
    ensures Fields(p + [sep] + t, sep) == [p] + Fields(t, sep)
  {
    var s := p + [sep] + t;
    if |p| == 0 {
      assert s[1..] == t;
    } else {
      assert s[1..] == p[1..] + [sep] + t;
      FieldsCons(p[1..], t, sep);
      assert [p[0]] + p[1..] == p;
    }
  }

  /** Splitting a join at its separator gives the pieces back. */
  lemma {:induction false} FieldsOfJoin(parts: seq<string>, sep: char)
    requires |parts| >= 1
    requires forall i :: 0 <= i < |parts| ==> sep !in parts[i]
    ensures Fields(Join(parts, sep), sep) == parts
  {
    if |parts| == 1 {
      FieldsPlain(parts[0], sep);
    } else {
      FieldsOfJoin(parts[1..], sep);
      FieldsCons(parts[0], Join(parts[1..], sep), sep);
      assert [parts[0]] + parts[1..] == parts;
    }
  }

  /** Joining the fields of a string at the separator gives the string back. */
  lemma {:induction false} JoinOfFields(s: string, sep: char)
    ensures Join(Fields(s, sep), sep) == s
  {
    if |s| > 0 {
      var rest := Fields(s[1..], sep);
      JoinOfFields(s[1..], sep);
      if s[0] == sep {
        assert ([""] + rest)[1..] == rest;
      } else {
        var f := [[s[0]] + rest[0]] + rest[1..];
        if |rest| > 1 {
          assert f[1..] == rest[1..];
        }
        assert [s[0]] + s[1..] == s;
      }
    }
  }

  /** Java's split undoes a join of separator-free pieces whose last piece is
      not empty (a single piece may be empty). */
  lemma SplitOfJoin(parts: seq<string>, sep: char)
    requires |parts| >= 1
    requires forall i :: 0 <= i < |parts| ==> sep !in parts[i]
    requires |parts| > 1 ==> parts[|parts| - 1] != ""
    ensures JavaSplit(Join(parts, sep), sep) == parts
  {
    var s := Join(parts, sep);
    if |parts| > 1 {
      assert s[|parts[0]|] == sep;
      FieldsOfJoin(parts, sep);
    }
  }
}
