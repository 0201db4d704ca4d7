/**
 * Parsing of object-storage URIs of the form `s3://bucket/key` into the
 * bucket and the key that a presigned link is requested for.
 *
 * `ParseS3Uri` is the parser as written: it deletes every occurrence of the
 * scheme `s3://` (a single left-to-right pass, like Python's `str.replace`),
 * splits the rest on `/`, keeps the first segment as the bucket and joins the
 * remaining segments with `/` into the key.  `ParseS3UriPrefix` removes the
 * scheme only where it leads the URI, which is what the parser is meant to do
 * (see `KeyWithSchemeIsCorrupted` for where the two differ).
 */
module S3Uri {

  const Scheme: string := "s3://"
  const Slash: char := '/'

  /** A bucket name and an object key. */
  datatype S3Location = S3Location(bucket: string, key: string)

  predicate StartsWith(s: string, prefix: string) {
    |prefix| <= |s| && s[..|prefix|] == prefix
  }

  /** `pat` occurs in `s` starting at position `i`. */
  predicate OccursAt(s: string, pat: string, i: nat) {
    i + |pat| <= |s| && s[i..i + |pat|] == pat
  }

  /** `pat` occurs somewhere in `s`. */
  predicate Contains(s: string, pat: string) {
    exists i: nat | i <= |s| :: OccursAt(s, pat, i)
  }

  /** A string lacking one of the scheme's characters holds no occurrence of the scheme. */
  lemma SchemeNeedsChar(s: string, j: nat)
    requires j < |Scheme| && Scheme[j] !in s
    ensures !Contains(s, Scheme)
  {
    forall i: nat | i <= |s|
      ensures !OccursAt(s, Scheme, i)
    {
      if i + |Scheme| <= |s| {
        assert s[i..i + |Scheme|][j] == s[i + j];
        assert s[i + j] in s;
      }
    }
  }

  // ---------------------------------------------------------------------
  // Replace-all with the empty string

  /**
   * Deletes the occurrences of `pat` found by one scan from the left: the
   * leftmost occurrence is removed and the scan resumes right after it.
   */
  function RemoveAll(s: string, pat: string): (r: string)
    requires pat != []
    ensures |r| <= |s|
    decreases |s|
  {
    if s == [] then []
    else if StartsWith(s, pat) then RemoveAll(s[|pat|..], pat)
    else [s[0]] + RemoveAll(s[1..], pat)
  }

  /** A string in which `pat` does not occur passes through unchanged. */
  lemma {:induction false} RemoveAllWithoutMatch(s: string, pat: string)
    requires pat != []
    requires !Contains(s, pat)
    ensures RemoveAll(s, pat) == s
    decreases |s|
  {
    if s != [] {
      assert !StartsWith(s, pat) by {
        assert StartsWith(s, pat) ==> OccursAt(s, pat, 0);
      }
      WithoutMatchTail(s, pat);
      RemoveAllWithoutMatch(s[1..], pat);
    }
  }

  // ---------------------------------------------------------------------
  // Splitting on a separator and joining back

  /** The position of the first `c` in `s`. */
  function IndexOf(s: string, c: char): (i: nat)
    requires c in s
    ensures i < |s| && s[i] == c && c !in s[..i]
  {
    if s[0] == c then 0
    else
      var j := IndexOf(s[1..], c);
      assert s[..j + 1] == [s[0]] + s[1..][..j];
      j + 1
  }

  /** Python's `s.split(sep)` for a one-character separator. */
  function Split(s: string, sep: char): (parts: seq<string>)
    ensures |parts| >= 1
    ensures forall k :: 0 <= k < |parts| ==> sep !in parts[k]
    decreases |s|
  {
    if sep !in s then [s]
    else
      var i := IndexOf(s, sep);
      [s[..i]] + Split(s[i + 1..], sep)
  }

  /** Python's `sep.join(parts)`; joining no parts gives the empty string. */
  function Join(parts: seq<string>, sep: char): (r: string)
    ensures |parts| == 0 ==> r == []
    ensures |parts| >= 1 ==> |parts[0]| <= |r| && r[..|parts[0]|] == parts[0]
    ensures |parts| >= 2 ==> |parts[0]| < |r| && r[|parts[0]|] == sep
  {
    if |parts| == 0 then []
    else if |parts| == 1 then parts[0]
    else parts[0] + [sep] + Join(parts[1..], sep)
  }

  /** Joining the parts of a split gives back the original string. */
  lemma {:induction false} JoinSplit(s: string, sep: char)
    ensures Join(Split(s, sep), sep) == s
    decreases |s|
  {
    if sep in s {
      var i := IndexOf(s, sep);
      var rest := Split(s[i + 1..], sep);
      JoinSplit(s[i + 1..], sep);
      var parts := [s[..i]] + rest;
      assert Split(s, sep) == parts;
      assert |parts| >= 2 && parts[0] == s[..i] && parts[1..] == rest;
      assert Join(parts, sep) == s[..i] + [sep] + Join(rest, sep);
      assert s == s[..i] + [sep] + s[i + 1..];
    }
  }

  /** The first `sep` of `a + [sep] + b` is the one between them, when `a` has none. */
  lemma {:induction false} IndexOfJoined(a: string, sep: char, b: string)
    requires sep !in a
    ensures IndexOf(a + [sep] + b, sep) == |a|
    decreases |a|
  {
    if a != [] {
      assert a[0] in a;
      assert (a + [sep] + b)[1..] == a[1..] + [sep] + b;
      assert sep !in a[1..] by {
        forall k | 0 <= k < |a[1..]| ensures a[1..][k] != sep { assert a[1..][k] in a; }
      }
      IndexOfJoined(a[1..], sep, b);
    }
  }

  /** Splitting parts that are free of the separator after joining them gives the parts back. */
  lemma {:induction false} SplitJoin(parts: seq<string>, sep: char)
    requires |parts| >= 1
    requires forall k :: 0 <= k < |parts| ==> sep !in parts[k]
    ensures Split(Join(parts, sep), sep) == parts
    decreases |parts|
  {
    var p0 := parts[0];
    if |parts| == 1 {
      assert Join(parts, sep) == p0;
    } else {
      var tail := Join(parts[1..], sep);
      var s := p0 + [sep] + tail;
      assert Join(parts, sep) == s;
      assert s[|p0|] == sep;
      IndexOfJoined(p0, sep, tail);
      assert s[..|p0|] == p0;
      assert s[|p0| + 1..] == tail;
      assert Split(s, sep) == [p0] + Split(tail, sep);
      SplitJoin(parts[1..], sep);
      assert parts == [p0] + parts[1..];
    }
  }

  // ---------------------------------------------------------------------
  // Bucket and key of a scheme-less location

  /** The first `/`-segment as the bucket, the other segments re-joined as the key. */
  function BucketAndKey(s: string): (loc: S3Location)
    ensures Slash !in loc.bucket
  {
    var parts := Split(s, Slash);
    S3Location(parts[0], Join(parts[1..], Slash))
  }

  /**
   * The bucket is everything before the first `/` and the key everything
   * after it; without a `/` the whole string is the bucket and the key is empty.
   */
  lemma SplitAtFirstSlash(s: string)
    ensures Slash in s ==>
      var i := IndexOf(s, Slash);
      BucketAndKey(s) == S3Location(s[..i], s[i + 1..])
    ensures Slash !in s ==> BucketAndKey(s) == S3Location(s, "")
  {
    var parts := Split(s, Slash);
    if Slash in s {
      var i := IndexOf(s, Slash);
      var rest := Split(s[i + 1..], Slash);
      assert parts == [s[..i]] + rest;
      assert parts[0] == s[..i] && parts[1..] == rest;
      JoinSplit(s[i + 1..], Slash);
      assert Join(parts[1..], Slash) == s[i + 1..];
    } else {
      assert parts == [s];
      assert parts[1..] == [];
    }
  }


  /** Reading bucket and key back: `bucket + "/" + key` is the string when it holds a `/`. */
  lemma BucketAndKeyRoundTrip(s: string)
    ensures var loc := BucketAndKey(s);
      if Slash in s then loc.bucket + [Slash] + loc.key == s
      else loc.bucket == s && loc.key == ""
    ensures var loc := BucketAndKey(s);
      loc.key == "" <==> (s == loc.bucket || s == loc.bucket + [Slash])
  {
    SplitAtFirstSlash(s);
    if Slash in s {
      var i := IndexOf(s, Slash);
      assert s == s[..i] + [Slash] + s[i + 1..];
    }
  }

  /** A bucket without `/` and any key are recovered from `bucket + "/" + key`. */
  lemma BucketAndKeyOfJoined(bucket: string, key: string)
    requires Slash !in bucket
    ensures BucketAndKey(bucket + [Slash] + key) == S3Location(bucket, key)
  {
    var s := bucket + [Slash] + key;
    assert s[|bucket|] == Slash;
    IndexOfJoined(bucket, Slash, key);
    SplitAtFirstSlash(s);
    assert s[..|bucket|] == bucket;
    assert s[|bucket| + 1..] == key;
  }

  // ---------------------------------------------------------------------
  // The parser as written, and the corrected parser

  /** A match at the front is deleted and the scan goes on after it. */
  lemma RemoveLeading(pat: string, t: string)
    requires pat != []
    ensures RemoveAll(pat + t, pat) == RemoveAll(t, pat)
  {
    var s := pat + t;
    assert s[..|pat|] == pat;
    assert s[|pat|..] == t;
  }

  /** A character that does not start a match is kept. */
  lemma KeepLeading(c: char, t: string, pat: string)
    requires pat != [] && !StartsWith([c] + t, pat)
    ensures RemoveAll([c] + t, pat) == [c] + RemoveAll(t, pat)
  {
    assert ([c] + t)[1..] == t;
  }

  /** `s3://` does not overlap itself: no proper suffix of it is also a prefix. */
  lemma SchemeHasNoBorder(p: nat)
    requires 0 < p < |Scheme|
    ensures Scheme[p..] != Scheme[..|Scheme| - p]
  {
    assert Scheme[p..][0] == Scheme[p] != Scheme[0] == Scheme[..|Scheme| - p][0];
  }

  /** Dropping the first character of a string without `pat` leaves a string without `pat`. */
  lemma WithoutMatchTail(s: string, pat: string)
    requires s != [] && !Contains(s, pat)
    ensures !Contains(s[1..], pat)
  {
    forall i: nat | OccursAt(s[1..], pat, i)
      ensures OccursAt(s, pat, i + 1)
    {
      assert s[i + 1..i + 1 + |pat|] == s[1..][i..i + |pat|];
    }
  }

  /** A non-empty text without `s3://`, followed by `s3://`, does not itself start with `s3://`. */
  lemma SchemeNotAtFront(a: string, b: string)
    requires a != [] && !Contains(a, Scheme)
    ensures !StartsWith(a + Scheme + b, Scheme)
  {
    var s := a + Scheme + b;
    var n := |Scheme|;
    if |a| >= n {
      assert s[..n] == a[0..n];
      assert !OccursAt(a, Scheme, 0);
    } else {
      var p := |a|;
      assert s[..n][p..] == Scheme[..n - p];
      SchemeHasNoBorder(p);
    }
  }

  /**
   * The first `s3://` is deleted wherever it sits, the text before it is
   * kept, and the scan goes on after it.  With `RemoveAllWithoutMatch` this
   * fixes the deleting pass on every string.
   */
  lemma {:induction false} RemoveAllFirst(a: string, b: string)
    requires !Contains(a, Scheme)
    ensures RemoveAll(a + Scheme + b, Scheme) == a + RemoveAll(b, Scheme)
    decreases |a|
  {
    if a == [] {
      assert a + Scheme + b == Scheme + b;
      RemoveLeading(Scheme, b);
    } else {
      var rest := a[1..] + Scheme + b;
      assert a + Scheme + b == [a[0]] + rest;
      SchemeNotAtFront(a, b);
      KeepLeading(a[0], rest, Scheme);
      WithoutMatchTail(a, Scheme);
      RemoveAllFirst(a[1..], b);
      assert a == [a[0]] + a[1..];
    }
  }


  /** `parse_s3_uri` as written: every `s3://` is deleted before splitting. */
  function ParseS3Uri(uri: string): (loc: S3Location)
    ensures Slash !in loc.bucket
  {
    BucketAndKey(RemoveAll(uri, Scheme))
  }

  /** Drops `prefix` from the front of `s` when `s` starts with it. */
  function StripPrefix(s: string, prefix: string): (r: string)
    ensures StartsWith(s, prefix) ==> prefix + r == s
    ensures !StartsWith(s, prefix) ==> r == s
  {
    if StartsWith(s, prefix) then s[|prefix|..] else s
  }

  /** The corrected parser: only a leading `s3://` is removed. */
  function ParseS3UriPrefix(uri: string): (loc: S3Location)
    ensures Slash !in loc.bucket
  {
    BucketAndKey(StripPrefix(uri, Scheme))
  }

  /** The corrected parser inverts URI construction for every bucket and key. */
  lemma ParseS3UriPrefixRoundTrip(bucket: string, key: string)
    requires Slash !in bucket
    ensures ParseS3UriPrefix(Scheme + bucket + [Slash] + key) == S3Location(bucket, key)
  {
    var uri := Scheme + bucket + [Slash] + key;
    assert uri[..|Scheme|] == Scheme;
    assert uri[|Scheme|..] == bucket + [Slash] + key;
    BucketAndKeyOfJoined(bucket, key);
  }

  /** And URI construction inverts the corrected parser on URIs that name a key. */
  lemma ParseS3UriPrefixRebuild(uri: string)
    requires StartsWith(uri, Scheme) && Slash in uri[|Scheme|..]
    ensures var loc := ParseS3UriPrefix(uri);
      Scheme + loc.bucket + [Slash] + loc.key == uri
  {
    var rest := StripPrefix(uri, Scheme);
    assert Scheme + rest == uri;
    assert rest == uri[|Scheme|..];
    var loc := BucketAndKey(rest);
    assert ParseS3UriPrefix(uri) == loc;
    BucketAndKeyRoundTrip(rest);
    var joined := loc.bucket + [Slash] + loc.key;
    assert joined == rest;
    assert Scheme + loc.bucket + [Slash] + loc.key == Scheme + joined;
  }

  /**
   * The parser as written agrees with the corrected one when bucket and key
   * do not spell out `s3://` anywhere.
   */
  lemma ParseS3UriRoundTrip(bucket: string, key: string)
    requires Slash !in bucket
    requires !Contains(bucket + [Slash] + key, Scheme)
    ensures ParseS3Uri(Scheme + bucket + [Slash] + key) == S3Location(bucket, key)
  {
    var rest := bucket + [Slash] + key;
    assert Scheme + bucket + [Slash] + key == Scheme + rest;
    RemoveLeading(Scheme, rest);
    RemoveAllWithoutMatch(rest, Scheme);
    assert RemoveAll(Scheme + rest, Scheme) == rest;
    BucketAndKeyOfJoined(bucket, key);
  }

  /** The parser on a typical citation URI. */
  lemma ParseS3UriExample()
    ensures ParseS3Uri("s3://bucket-a/path/to/obj.pdf") == S3Location("bucket-a", "path/to/obj.pdf")
  {
    var bucket, key := "bucket-a", "path/to/obj.pdf";
    var uri := Scheme + bucket + [Slash] + key;
    assert uri == "s3://bucket-a/path/to/obj.pdf";
    ParseWithoutColon(bucket, key);
  }

  /** A URI whose bucket and key hold no `:` parses into that bucket and key. */
  lemma ParseWithoutColon(bucket: string, key: string)
    requires Slash !in bucket && ':' !in bucket && ':' !in key
    ensures ParseS3Uri(Scheme + bucket + [Slash] + key) == S3Location(bucket, key)
  {
    var rest := bucket + [Slash] + key;
    assert ':' !in rest;
    SchemeNeedsChar(rest, 2);
    ParseS3UriRoundTrip(bucket, key);
  }


  /**
   * The parser as written deletes `s3://` inside the key too: the object
   * `s3://k` in bucket `b` is parsed as the object `k`.
   */
  lemma KeyWithSchemeIsCorrupted()
    ensures ParseS3UriPrefix("s3://b/s3://k") == S3Location("b", "s3://k")
    ensures ParseS3Uri("s3://b/s3://k") == S3Location("b", "k")
  {
    var bucket, k := "b", "k";
    var key := Scheme + k;
    var uri := Scheme + bucket + [Slash] + key;
    assert uri == "s3://b/s3://k";
    ParseS3UriPrefixRoundTrip(bucket, key);
    assert ParseS3UriPrefix(uri) == S3Location(bucket, key);
    SchemeDeletedFromKey();
    var stripped := bucket + [Slash] + k;
    assert RemoveAll(uri, Scheme) == stripped;
    BucketAndKeyOfJoined(bucket, k);
    assert ParseS3Uri(uri) == BucketAndKey(stripped);
  }

  /** The deleting pass over `s3://b/s3://k` removes both schemes. */
  lemma SchemeDeletedFromKey()
    ensures RemoveAll("s3://b/s3://k", Scheme) == "b" + [Slash] + "k"
  {
    var front, k := "b/", "k";
    var rest := front + Scheme + k;
    var uri := Scheme + rest;
    assert uri == "s3://b/s3://k";
    RemoveLeading(Scheme, rest);
    SchemeNeedsChar(front, 2);
    RemoveAllFirst(front, k);
    SchemeNeedsChar(k, 0);
    RemoveAllWithoutMatch(k, Scheme);
    assert front + k == "b" + [Slash] + "k";
  }


  /** One deleting pass can leave `s3://` behind: `s3s3://://` becomes `s3://`. */
  lemma RemoveAllLeavesScheme()
    ensures RemoveAll("s3s3://://", Scheme) == Scheme
    ensures Contains(RemoveAll("s3s3://://", Scheme), Scheme)
  {
    var front, tail := "s3", "://";
    var s := front + Scheme + tail;
    assert s == "s3s3://://";
    SchemeNeedsChar(front, 2);
    RemoveAllFirst(front, tail);
    SchemeNeedsChar(tail, 0);
    RemoveAllWithoutMatch(tail, Scheme);
    assert front + tail == Scheme;
    assert OccursAt(Scheme, Scheme, 0);
  }

}
