/**
 * The two java.lang.String operations the core relies on: `contains` (the
 * dependency linker's substring test) and `split` on a single space (how a
 * code mapping's constructor string is cut into formal-argument ids).
 */
module JavaStrings {

  /** `sub` occurs in `text` starting at position `k`. */
  ghost predicate OccursAt(text: string, sub: string, k: int) {
    0 <= k && k + |sub| <= |text| && text[k..k + |sub|] == sub
  }

  /** `sub` occurs somewhere in `text`. */
  ghost predicate Occurs(text: string, sub: string) {
    exists k :: OccursAt(text, sub, k)
  }

  /** When `sub` is not a prefix of `text`, it occurs in `text` iff it occurs in the tail. */
  lemma OccursInTail(text: string, sub: string)
    requires |text| > 0 && !(sub <= text)
    ensures Occurs(text, sub) <==> Occurs(text[1..], sub)
  {
    if Occurs(text, sub) {
      var k :| OccursAt(text, sub, k);
      assert text[1..][k - 1..k - 1 + |sub|] == text[k..k + |sub|];
      assert OccursAt(text[1..], sub, k - 1);
    }
    if Occurs(text[1..], sub) {
      var k :| OccursAt(text[1..], sub, k);
      assert text[1..][k..k + |sub|] == text[k + 1..k + 1 + |sub|];
      assert OccursAt(text, sub, k + 1);
    }
  }

  /** Java's `text.contains(sub)`: a plain substring test; the empty string occurs in every text. */
  function Contains(text: string, sub: string): (r: bool)
    ensures r <==> Occurs(text, sub)
    decreases |text|
  {
    if sub <= text then
      assert text[0..|sub|] == sub;
      assert OccursAt(text, sub, 0);
      true
    else if |text| == 0 then
      false
    else
      OccursInTail(text, sub);
      Contains(text[1..], sub)
  }

  /** Puts single spaces back between pieces. */
  function Join(parts: seq<string>): string {
    if |parts| == 0 then ""
    else if |parts| == 1 then parts[0]
    else parts[0] + " " + Join(parts[1..])
  }

  /** Every piece of `s` between single spaces, empty pieces included. */
  function SplitAll(s: string): (parts: seq<string>)
    ensures |parts| >= 1
    ensures forall k :: 0 <= k < |parts| ==> ' ' !in parts[k]
    ensures Join(parts) == s
  {
    if s == [] then [""]
    else if s[0] == ' ' then
      var rest := SplitAll(s[1..]);
      assert ([""] + rest)[1..] == rest;
      [""] + rest
    else
      var rest := SplitAll(s[1..]);
      var parts := [[s[0]] + rest[0]] + rest[1..];
      assert |rest| > 1 ==> parts[1..] == rest[1..] && Join(rest) == rest[0] + " " + Join(rest[1..]);
      assert s == [s[0]] + s[1..];
      parts
  }

  /** A space-free word is a single piece. */
  lemma {:induction false} SplitAllOfWord(w: string)
    requires ' ' !in w
    ensures SplitAll(w) == [w]
    decreases |w|
  {
    if w != [] {
      assert ' ' !in w[1..];
      SplitAllOfWord(w[1..]);
      assert [w[0]] + w[1..] == w;
    }
  }

  /** Appending a space and a space-free word appends that word as one more piece. */
  lemma {:induction false} SplitAllThenWord(t: string, w: string)
    requires ' ' !in w
    ensures SplitAll(t + " " + w) == SplitAll(t) + [w]
    decreases |t|
  {
    if t == [] {
      assert t + " " + w == " " + w;
      assert (" " + w)[1..] == w;
      SplitAllOfWord(w);
    } else {
      assert (t + " " + w)[0] == t[0];
      assert (t + " " + w)[1..] == t[1..] + " " + w;
      SplitAllThenWord(t[1..], w);
    }
  }

  /** `Join` seen from the back. */
  lemma {:induction false} JoinLast(parts: seq<string>)
    requires |parts| >= 2
    ensures Join(parts) == Join(parts[..|parts| - 1]) + " " + parts[|parts| - 1]
    decreases |parts|
  {
    var n := |parts|;
    if n > 2 {
      JoinLast(parts[1..]);
      assert parts[1..][..n - 2] == parts[..n - 1][1..];
    } else {
      assert parts[..1] == [parts[0]];
    }
  }

  /** Joining space-free pieces and cutting the text at every space gives the pieces back. */
  lemma {:induction false} SplitAllJoin(parts: seq<string>)
    requires |parts| >= 1
    requires forall k :: 0 <= k < |parts| ==> ' ' !in parts[k]
    ensures SplitAll(Join(parts)) == parts
    decreases |parts|
  {
    var n := |parts|;
    if n == 1 {
      SplitAllOfWord(parts[0]);
    } else {
      JoinLast(parts);
      SplitAllJoin(parts[..n - 1]);
      SplitAllThenWord(Join(parts[..n - 1]), parts[n - 1]);
      assert parts[..n - 1] + [parts[n - 1]] == parts;
    }
  }

  /** Drops the empty strings at the end of `parts`. */
  function DropTrailingEmpty(parts: seq<string>): (r: seq<string>)
    ensures r <= parts
    ensures r == [] || r[|r| - 1] != ""
    ensures forall k :: |r| <= k < |parts| ==> parts[k] == ""
  {
    if |parts| > 0 && parts[|parts| - 1] == "" then DropTrailingEmpty(parts[..|parts| - 1])
    else parts
  }

  /**
   * Java's `s.split(Pattern.quote(" "))`: a string without a space is its own
   * single piece (so "" gives [""]); otherwise the pieces between single
   * spaces, with the trailing empty pieces removed.
   */
  function Split(s: string): (r: seq<string>)
    ensures ' ' !in s ==> r == [s]
    ensures forall k :: 0 <= k < |r| ==> ' ' !in r[k]
    ensures ' ' in s ==> r <= SplitAll(s) && (r == [] || r[|r| - 1] != "")
    ensures ' ' in s ==> forall k :: |r| <= k < |SplitAll(s)| ==> SplitAll(s)[k] == ""
  {
    if ' ' !in s then [s] else DropTrailingEmpty(SplitAll(s))
  }

  /**
   * Ids written one after the other with single spaces between them are split
   * back into exactly those ids, provided none is empty or holds a space.
   */
  lemma SplitJoin(ids: seq<string>)
    requires |ids| >= 1
    requires forall k :: 0 <= k < |ids| ==> ids[k] != "" && ' ' !in ids[k]
    ensures Split(Join(ids)) == ids
  {
    SplitAllJoin(ids);
    if |ids| >= 2 {
      JoinLast(ids);
      assert Join(ids)[|Join(ids[..|ids| - 1])|] == ' ';
    }
  }
}
