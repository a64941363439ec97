/** Joining fields with a separator character, as the row formats do with string
    concatenation, and splitting a line back into its fields. */
module Fields {
  /** `fs[0] + sep + fs[1] + sep + ... + fs[n-1]`. */
  function Join(fs: seq<string>, sep: char): string
    requires |fs| >= 1
    decreases |fs|
  {
    if |fs| == 1 then fs[0] else fs[0] + [sep] + Join(fs[1..], sep)
  }

  /** The maximal separator-free pieces of `s`, in order (an empty `s` is one empty piece). */
  function Split(s: string, sep: char): (r: seq<string>)
    ensures |r| >= 1
    decreases |s|
  {
    if |s| == 0 then [""]
    else
      var rest := Split(s[1..], sep);
      if s[0] == sep then [""] + rest else [[s[0]] + rest[0]] + rest[1..]
  }

  lemma {:induction false} SplitNoSep(a: string, sep: char)
    requires sep !in a
    ensures Split(a, sep) == [a]
    decreases |a|
  {
    if |a| > 0 {
      assert sep !in a[1..] by {
        forall k | 0 <= k < |a[1..]| ensures a[1..][k] != sep { assert a[1..][k] == a[k + 1]; }
      }
      SplitNoSep(a[1..], sep);
      assert [a[0]] + a[1..] == a;
    }
  }

  lemma {:induction false} SplitAppend(a: string, b: string, sep: char)
    requires sep !in a
    ensures Split(a + [sep] + b, sep) == [a] + Split(b, sep)
    decreases |a|
  {
    var s := a + [sep] + b;
    if |a| == 0 {
      assert s == [sep] + b;
      assert s[1..] == b;
    } else {
      assert s[0] == a[0];
      assert s[1..] == a[1..] + [sep] + b;
      assert sep !in a[1..] by {
        forall k | 0 <= k < |a[1..]| ensures a[1..][k] != sep { assert a[1..][k] == a[k + 1]; }
      }
      SplitAppend(a[1..], b, sep);
      assert [a[0]] + a[1..] == a;
    }
  }

  /** Splitting undoes joining, provided no field contains the separator. */
  lemma {:induction false} SplitJoin(fs: seq<string>, sep: char)
    requires |fs| >= 1
    requires forall k :: 0 <= k < |fs| ==> sep !in fs[k]
    ensures Split(Join(fs, sep), sep) == fs
    decreases |fs|
  {
    if |fs| == 1 {
      SplitNoSep(fs[0], sep);
    } else {
      SplitAppend(fs[0], Join(fs[1..], sep), sep);
      SplitJoin(fs[1..], sep);
      assert [fs[0]] + fs[1..] == fs;
    }
  }

  lemma Join4(a: string, b: string, c: string, d: string, sep: char)
    ensures Join([a, b, c, d], sep) == a + [sep] + b + [sep] + c + [sep] + d
  {
    assert [a, b, c, d][1..] == [b, c, d];
    assert [b, c, d][1..] == [c, d];
    assert [c, d][1..] == [d];
    assert Join([c, d], sep) == c + [sep] + d;
    assert Join([b, c, d], sep) == b + [sep] + (c + [sep] + d);
  }

  /** A joined line contains a character only if a field or the separator does. */
  lemma {:induction false} JoinAvoids(fs: seq<string>, sep: char, c: char)
    requires |fs| >= 1 && c != sep
    requires forall k :: 0 <= k < |fs| ==> c !in fs[k]
    ensures c !in Join(fs, sep)
    decreases |fs|
  {
    if |fs| > 1 {
      JoinAvoids(fs[1..], sep, c);
    }
  }

  /** A joined line starts with its first field. */
  lemma JoinStartsWithFirst(fs: seq<string>, sep: char)
    requires |fs| >= 1
    ensures fs[0] <= Join(fs, sep)
  {
  }
}
