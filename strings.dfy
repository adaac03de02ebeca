/** strings.Split with the separator ",", and its inverse strings.Join. */
module Strings {

  /** Number of occurrences of c in s. */
  function Count(c: char, s: string): nat {
    if |s| == 0 then 0 else (if s[0] == c then 1 else 0) + Count(c, s[1..])
  }

  /** strings.Join(parts, ","). */
  function JoinComma(parts: seq<string>): string {
    if |parts| == 0 then ""
    else if |parts| == 1 then parts[0]
    else parts[0] + "," + JoinComma(parts[1..])
  }

  /** strings.Split(s, ","): the pieces between commas, in order, with no
      trimming; an input with k commas gives k + 1 pieces, and the empty
      input gives one empty piece. */
  function SplitComma(s: string): (parts: seq<string>)
    ensures |parts| == Count(',', s) + 1
    ensures forall i :: 0 <= i < |parts| ==> ',' !in parts[i]
    ensures JoinComma(parts) == s
  {
    if |s| == 0 then [""]
    else
      var rest := SplitComma(s[1..]);
      if s[0] == ',' then
        assert s == "" + "," + JoinComma(rest);
        [""] + rest
      else
        var parts := [[s[0]] + rest[0]] + rest[1..];
        assert parts[1..] == rest[1..];
        assert JoinComma(parts) == s by {
          if |rest| > 1 {
            assert JoinComma(rest) == rest[0] + "," + JoinComma(rest[1..]);
          }
        }
        parts
  }

  /** Splitting a join of comma-free pieces gives the pieces back. */
  lemma {:induction false} SplitJoin(parts: seq<string>)
    requires |parts| > 0
    requires forall i :: 0 <= i < |parts| ==> ',' !in parts[i]
    ensures SplitComma(JoinComma(parts)) == parts
  {
    if |parts| == 1 {
      SplitCommaFree(parts[0]);
    } else {
      SplitJoin(parts[1..]);
      SplitPrefix(parts[0], JoinComma(parts[1..]));
    }
  }

  /** A string without commas is a single piece. */
  lemma {:induction false} SplitCommaFree(s: string)
    requires ',' !in s
    ensures SplitComma(s) == [s]
  {
    if |s| > 0 {
      assert s[0] in s;
      assert forall c :: c in s[1..] ==> c in s;
      SplitCommaFree(s[1..]);
      assert s == [s[0]] + s[1..];
    }
  }

  /** A comma-free head followed by "," and a tail splits into the head and
      the tail's pieces. */
  lemma {:induction false} SplitPrefix(head: string, tail: string)
    requires ',' !in head
    ensures SplitComma(head + "," + tail) == [head] + SplitComma(tail)
  {
    if |head| == 0 {
      assert head + "," + tail == [','] + tail;
      assert ([','] + tail)[1..] == tail;
    } else {
      var s := head + "," + tail;
      assert s[0] == head[0];
      assert s[1..] == head[1..] + "," + tail;
      assert forall c :: c in head[1..] ==> c in head;
      assert head[0] in head;
      SplitPrefix(head[1..], tail);
      assert [head[0]] + head[1..] == head;
    }
  }
}
