/** The tag normaliser of `get_hash_tags`: each line of the hashtag file loses every `#`
    and then the whitespace around it (`line.replace("#", "").strip()`). */
module HashTags {

  /** The characters Python's `str.strip()` removes: the ASCII controls TAB to CR, the
      separators U+001C..U+001F, SPACE, NEL, NBSP and the Unicode space separators. */
  predicate IsSpace(c: char) {
    var n := c as int;
    || (0x09 <= n <= 0x0D) || (0x1C <= n <= 0x20) || n == 0x85 || n == 0xA0 || n == 0x1680
    || (0x2000 <= n <= 0x200A) || n == 0x2028 || n == 0x2029 || n == 0x202F || n == 0x205F
    || n == 0x3000
  }

  /** `s.replace("#", "")`. */
  function RemoveHashes(s: string): (r: string)
    ensures '#' !in r
    ensures |r| <= |s|
    ensures forall c :: c != '#' ==> multiset(r)[c] == multiset(s)[c]
    ensures '#' !in s ==> r == s
  {
    if s == [] then []
    else
      assert s == [s[0]] + s[1..];
      if s[0] == '#' then RemoveHashes(s[1..]) else [s[0]] + RemoveHashes(s[1..])
  }

  /** One character is removed if it is '#' and kept otherwise. */
  lemma RemoveHashesSingle(c: char)
    ensures RemoveHashes([c]) == if c == '#' then [] else [c]
  {
    assert [c][1..] == [];
  }

  /** Removing the hashes of a concatenation removes them from each part, keeping the order. */
  lemma {:induction false} RemoveHashesAppend(a: string, b: string)
    ensures RemoveHashes(a + b) == RemoveHashes(a) + RemoveHashes(b)
  {
    if a == [] {
      assert a + b == b;
    } else {
      assert (a + b)[0] == a[0] && (a + b)[1..] == a[1..] + b;
      RemoveHashesAppend(a[1..], b);
    }
  }

  /** `s.lstrip()`: drops the longest all-space prefix. */
  function TrimStart(s: string): (r: string)
    ensures |r| <= |s| && r == s[|s| - |r|..]
    ensures forall i :: 0 <= i < |s| - |r| ==> IsSpace(s[i])
    ensures r == [] || !IsSpace(r[0])
  {
    if s != [] && IsSpace(s[0]) then TrimStart(s[1..]) else s
  }

  /** `s.rstrip()`: drops the longest all-space suffix. */
  function TrimEnd(s: string): (r: string)
    ensures |r| <= |s| && r == s[..|r|]
    ensures forall i :: |r| <= i < |s| ==> IsSpace(s[i])
    ensures r == [] || !IsSpace(r[|r| - 1])
  {
    if s != [] && IsSpace(s[|s| - 1]) then TrimEnd(s[..|s| - 1]) else s
  }

  /** `s.strip()`: the result has no whitespace at either end. */
  function Strip(s: string): (r: string)
    ensures |r| <= |s|
    ensures r == [] || (!IsSpace(r[0]) && !IsSpace(r[|r| - 1]))
  {
    TrimEnd(TrimStart(s))
  }

  /** Stripping cuts exactly the surrounding whitespace: the result is a slice of s, and
      everything around it is whitespace. */
  lemma StripIsTrimmedSlice(s: string)
    ensures exists i, j :: 0 <= i <= j <= |s| && TrimmedAt(s, i, j) && Strip(s) == s[i..j]
  {
    var i := |s| - |TrimStart(s)|;
    StripSlice(s, i);
    StripTrimmed(s, i);
  }

  /** The slice that stripping keeps starts where left stripping stops. */
  lemma {:induction false} StripSlice(s: string, i: int)
    requires i == |s| - |TrimStart(s)|
    ensures 0 <= i <= i + |Strip(s)| <= |s| && Strip(s) == s[i..i + |Strip(s)|]
  {
    SliceOfSlice(s, i, TrimStart(s), Strip(s));
  }

  /** Everything around that slice is whitespace. */
  lemma {:induction false} StripTrimmed(s: string, i: int)
    requires i == |s| - |TrimStart(s)|
    ensures 0 <= i <= i + |Strip(s)| <= |s| && TrimmedAt(s, i, i + |Strip(s)|)
  {
    var u := TrimStart(s);
    SpacesOfSuffix(s, i, u, |TrimEnd(u)|);
  }

  /** Whitespace at the end of a suffix of s is whitespace at the end of s. */
  lemma SpacesOfSuffix(s: string, i: int, u: string, from: int)
    requires 0 <= i <= |s| && u == s[i..] && 0 <= from <= |u|
    requires forall k :: from <= k < |u| ==> IsSpace(u[k])
    ensures forall k :: i + from <= k < |s| ==> IsSpace(s[k])
  {
    forall k | i + from <= k < |s| ensures IsSpace(s[k]) {
      assert s[k] == u[k - i];
    }
  }

  /** A prefix of a suffix of s is a slice of s. */
  lemma SliceOfSlice(s: string, i: int, u: string, r: string)
    requires 0 <= i <= |s| && u == s[i..]
    requires |r| <= |u| && r == u[..|r|]
    ensures r == s[i..i + |r|]
  {
  }

  /** The tag a line of the hashtag file becomes. */
  function NormalizeTag(line: string): (tag: string)
    ensures '#' !in tag
    ensures tag == [] || (!IsSpace(tag[0]) && !IsSpace(tag[|tag| - 1]))
  {
    var t := Strip(RemoveHashes(line));
    assert t == TrimEnd(TrimStart(RemoveHashes(line)));
    assert forall c :: c in t ==> c in TrimStart(RemoveHashes(line));
    assert forall c :: c in TrimStart(RemoveHashes(line)) ==> c in RemoveHashes(line);
    t
  }

  /** The tag is the hash-free line with exactly its surrounding whitespace cut off. */
  lemma NormalizeTagIsTrimmedSlice(line: string)
    ensures exists i, j :: 0 <= i <= j <= |RemoveHashes(line)| && TrimmedAt(RemoveHashes(line), i, j)
              && NormalizeTag(line) == RemoveHashes(line)[i..j]
  {
    StripIsTrimmedSlice(RemoveHashes(line));
  }

  /** Everything of s before i and from j on is whitespace. */
  ghost predicate TrimmedAt(s: string, i: int, j: int)
    requires 0 <= i <= j <= |s|
  {
    && (forall k :: 0 <= k < i ==> IsSpace(s[k]))
    && (forall k :: j <= k < |s| ==> IsSpace(s[k]))
  }

  lemma TrimStartIdle(s: string)
    requires s == [] || !IsSpace(s[0])
    ensures TrimStart(s) == s
  {
  }

  lemma TrimEndIdle(s: string)
    requires s == [] || !IsSpace(s[|s| - 1])
    ensures TrimEnd(s) == s
  {
  }

  /** Normalising a tag again changes nothing. */
  lemma NormalizeTagIdempotent(line: string)
    ensures NormalizeTag(NormalizeTag(line)) == NormalizeTag(line)
  {
    var tag := NormalizeTag(line);
    assert RemoveHashes(tag) == tag;
    TrimStartIdle(tag);
    TrimEndIdle(tag);
  }

  /** get_hash_tags after the file is read: one tag per line, in file order. */
  function GetHashTags(lines: seq<string>): (tags: seq<string>)
    ensures |tags| == |lines|
    ensures forall i :: 0 <= i < |lines| ==> '#' !in tags[i] && tags[i] == NormalizeTag(lines[i])
  {
    seq(|lines|, i requires 0 <= i < |lines| => NormalizeTag(lines[i]))
  }
}
