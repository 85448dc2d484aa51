/** AT URIs (`at://<authority>/<collection>/<rkey>`) and the string
    splitting the listing handler does on them by hand. */
module AtUris {
  import opened Wrappers

  const Scheme: string := "at://"

  /** A parsed locator: `host` is the repository's DID (`uri.hostname`). */
  datatype AtUri = AtUri(host: string, collection: string, rkey: string)

  /** JavaScript's `s.split(sep)` for a one-character separator: the pieces
      between separators, including empty ones. */
  function Split(s: string, sep: char): (parts: seq<string>)
    ensures |parts| >= 1
    decreases |s|
  {
    if |s| == 0 then [""]
    else if s[0] == sep then [""] + Split(s[1..], sep)
    else
      var rest := Split(s[1..], sep);
      [[s[0]] + rest[0]] + rest[1..]
  }

  /** JavaScript's `parts.join(sep)`. */
  function Join(parts: seq<string>, sep: char): string
    requires |parts| >= 1
    decreases |parts|
  {
    if |parts| == 1 then parts[0] else parts[0] + [sep] + Join(parts[1..], sep)
  }

  /** Joining the pieces back with the separator gives the original string. */
  lemma {:induction false} JoinSplit(s: string, sep: char)
    ensures Join(Split(s, sep), sep) == s
    decreases |s|
  {
    if |s| == 0 {
    } else if s[0] == sep {
      JoinSplit(s[1..], sep);
      assert s == [sep] + s[1..];
    } else {
      var rest := Split(s[1..], sep);
      JoinSplit(s[1..], sep);
      if |rest| == 1 {
        assert s == [s[0]] + s[1..];
      } else {
        assert Join(rest, sep) == rest[0] + [sep] + Join(rest[1..], sep);
        var parts := Split(s, sep);
        assert parts[1..] == rest[1..];
        assert s == [s[0]] + s[1..];
      }
    }
  }

  /** A string without the separator is a single piece. */
  lemma {:induction false} SplitNoSeparator(a: string, sep: char)
    requires sep !in a
    ensures Split(a, sep) == [a]
    decreases |a|
  {
    if |a| > 0 {
      SplitNoSeparator(a[1..], sep);
      assert a == [a[0]] + a[1..];
    }
  }

  /** Splitting at the first separator peels off the piece before it. */
  lemma {:induction false} SplitFirst(a: string, sep: char, b: string)
    requires sep !in a
    ensures Split(a + [sep] + b, sep) == [a] + Split(b, sep)
    decreases |a|
  {
    if |a| == 0 {
      assert a + [sep] + b == [sep] + b;
      assert (a + [sep] + b)[1..] == b;
    } else {
      var s := a + [sep] + b;
      assert s[0] == a[0];
      assert s[1..] == a[1..] + [sep] + b;
      SplitFirst(a[1..], sep, b);
      assert [a[0]] + a[1..] == a;
    }
  }

  /** Splitting a join of separator-free pieces gives the pieces back. */
  lemma {:induction false} SplitJoin(parts: seq<string>, sep: char)
    requires |parts| >= 1
    requires forall i :: 0 <= i < |parts| ==> sep !in parts[i]
    ensures Split(Join(parts, sep), sep) == parts
    decreases |parts|
  {
    if |parts| == 1 {
      SplitNoSeparator(parts[0], sep);
    } else {
      SplitJoin(parts[1..], sep);
      SplitFirst(parts[0], sep, Join(parts[1..], sep));
      assert parts == [parts[0]] + parts[1..];
    }
  }

  /** The path segments that are not empty (`split('/').filter(Boolean)`). */
  function NonEmpty(segments: seq<string>): (r: seq<string>)
    ensures forall i :: 0 <= i < |r| ==> r[i] != ""
    ensures |r| <= |segments|
  {
    if segments == [] then []
    else if segments[0] == "" then NonEmpty(segments[1..])
    else [segments[0]] + NonEmpty(segments[1..])
  }

  /** `new AtUri(s)`: succeeds on `at://` followed by a non-empty authority
      and an optional path; the collection and the record key are the first
      and second non-empty path segments, or "" when absent. */
  function ParseAtUri(s: string): (r: Option<AtUri>)
    ensures r.Some? ==> r.value.host != "" && '/' !in r.value.host
    ensures r.Some? ==> |s| >= |Scheme| && s[..|Scheme|] == Scheme
  {
    if |s| < |Scheme| || s[..|Scheme|] != Scheme then None
    else
      var parts := Split(s[|Scheme|..], '/');
      if parts[0] == "" then None
      else
        var path := NonEmpty(parts[1..]);
        NoSeparatorInPiece(s[|Scheme|..], '/', 0);
        Some(AtUri(parts[0],
                   if |path| > 0 then path[0] else "",
                   if |path| > 1 then path[1] else ""))
  }

  /** No piece of a split contains the separator. */
  lemma {:induction false} NoSeparatorInPiece(s: string, sep: char, i: nat)
    requires i < |Split(s, sep)|
    ensures sep !in Split(s, sep)[i]
    decreases |s|
  {
    if |s| > 0 {
      var rest := Split(s[1..], sep);
      if s[0] == sep {
        if i > 0 { NoSeparatorInPiece(s[1..], sep, i - 1); }
      } else if i == 0 {
        NoSeparatorInPiece(s[1..], sep, 0);
      } else {
        NoSeparatorInPiece(s[1..], sep, i);
      }
    }
  }

  /** `uri.toString()` for a locator with a collection and a record key. */
  function Format(u: AtUri): string {
    Scheme + u.host + "/" + u.collection + "/" + u.rkey
  }

  /** A locator whose parts are non-empty and free of '/'. */
  predicate WellFormed(u: AtUri) {
    u.host != "" && u.collection != "" && u.rkey != "" &&
    '/' !in u.host && '/' !in u.collection && '/' !in u.rkey
  }

  /** Splitting a formatted locator on '/' gives
      `["at:", "", host, collection, rkey]`: segment 2 is the DID and
      segment 4 the record key. */
  lemma FormatSegments(u: AtUri)
    requires WellFormed(u)
    ensures Split(Format(u), '/') == ["at:", "", u.host, u.collection, u.rkey]
  {
    var parts := ["at:", "", u.host, u.collection, u.rkey];
    assert Join(parts, '/') == Format(u) by {
      assert Join(parts[4..], '/') == u.rkey;
      assert Join(parts[3..], '/') == u.collection + "/" + u.rkey;
      assert Join(parts[2..], '/') == u.host + "/" + u.collection + "/" + u.rkey;
    }
    SplitJoin(parts, '/');
  }

  /** A path segment after the record key is a sixth piece of the split. */
  lemma ExtraSegment(u: AtUri, extra: string)
    requires WellFormed(u) && '/' !in extra
    ensures Split(Format(u) + "/" + extra, '/') == ["at:", "", u.host, u.collection, u.rkey, extra]
  {
    var parts := ["at:", "", u.host, u.collection, u.rkey, extra];
    assert Join(parts, '/') == Format(u) + "/" + extra by {
      assert Join(parts[5..], '/') == extra;
      assert Join(parts[4..], '/') == u.rkey + "/" + extra;
      assert Join(parts[3..], '/') == u.collection + "/" + u.rkey + "/" + extra;
      assert Join(parts[2..], '/') == u.host + "/" + u.collection + "/" + u.rkey + "/" + extra;
    }
    SplitJoin(parts, '/');
  }

  /** Parsing a formatted well-formed locator gives it back. */
  lemma ParseFormat(u: AtUri)
    requires WellFormed(u)
    ensures ParseAtUri(Format(u)) == Some(u)
  {
    var s := Format(u);
    assert s[..|Scheme|] == Scheme;
    var rest := s[|Scheme|..];
    var parts := [u.host, u.collection, u.rkey];
    assert rest == u.host + "/" + u.collection + "/" + u.rkey;
    assert Join(parts, '/') == rest by {
      assert Join(parts[2..], '/') == u.rkey;
      assert Join(parts[1..], '/') == u.collection + "/" + u.rkey;
    }
    SplitJoin(parts, '/');
    assert Split(rest, '/')[1..] == [u.collection, u.rkey];
    assert NonEmpty([u.collection, u.rkey]) == [u.collection, u.rkey] by {
      assert [u.collection, u.rkey][1..] == [u.rkey];
      assert NonEmpty([u.rkey]) == [u.rkey] by {
        assert [u.rkey][1..] == [];
      }
    }
  }
}
