/**
 * The handful of JavaScript string operations the application relies on,
 * written out with JavaScript's semantics: `startsWith`, `split(" ")`,
 * `includes`, `toLowerCase` (on ASCII letters) and number-to-decimal
 * conversion inside template literals.
 */
module JsString {
  import opened Common

  const Space: char := ' '

  /** `s.startsWith(p)`. */
  predicate StartsWith(s: string, p: string) {
    |p| <= |s| && s[..|p|] == p
  }

  /**
   * `s.split(" ")`: the pieces between single spaces. JavaScript always
   * returns at least one piece, and two adjacent spaces yield an empty piece.
   */
  function Split(s: string): (parts: seq<string>)
    ensures |parts| >= 1
    ensures forall i :: 0 <= i < |parts| ==> Space !in parts[i]
    decreases |s|
  {
    if s == [] then [""]
    else if s[0] == Space then [""] + Split(s[1..])
    else
      var rest := Split(s[1..]);
      [[s[0]] + rest[0]] + rest[1..]
  }

  /** There is one more piece than there are spaces. */
  lemma {:induction false} SplitCount(s: string)
    ensures |Split(s)| == multiset(s)[Space] + 1
    decreases |s|
  {
    if s != [] {
      SplitCount(s[1..]);
      assert s == [s[0]] + s[1..];
    }
  }

  /** `parts.join(" ")`, the inverse of `Split`. */
  function Join(parts: seq<string>): string
    requires |parts| >= 1
    decreases |parts|
  {
    if |parts| == 1 then parts[0] else parts[0] + [Space] + Join(parts[1..])
  }

  /** `s.split(" ")[i]`: `None` stands for JavaScript's `undefined`. */
  function Token(s: string, i: nat): (r: Option<string>)
    ensures r.Some? ==> Space !in r.value
    ensures r.Some? <==> i <= multiset(s)[Space]
    ensures r.Some? ==> i < |Split(s)| && r.value == Split(s)[i]
    ensures i == 0 ==> r.Some?
  {
    SplitCount(s);
    var parts := Split(s);
    if i < |parts| then Some(parts[i]) else None
  }

  /** `s.split(" ")[0]`: everything before the first space. */
  function FirstToken(s: string): (r: string)
    ensures Space !in r
    ensures StartsWith(s, r)
    ensures |r| == |s| || s[|r|] == Space
  {
    FirstTokenIsPrefix(s);
    Split(s)[0]
  }

  lemma {:induction false} FirstTokenIsPrefix(s: string)
    ensures StartsWith(s, Split(s)[0])
    ensures |Split(s)[0]| == |s| || s[|Split(s)[0]|] == Space
    decreases |s|
  {
    if s != [] && s[0] != Space {
      FirstTokenIsPrefix(s[1..]);
      var first := Split(s[1..])[0];
      assert Split(s)[0] == [s[0]] + first;
      assert s[..|first| + 1] == [s[0]] + s[1..][..|first|];
    }
  }

  /** Joining the pieces of a split restores the original string. */
  lemma {:induction false} JoinSplit(s: string)
    ensures Join(Split(s)) == s
    decreases |s|
  {
    if s == [] {
    } else if s[0] == Space {
      JoinSplit(s[1..]);
      assert Split(s)[1..] == Split(s[1..]);
    } else {
      JoinSplit(s[1..]);
      var rest := Split(s[1..]);
      if |rest| == 1 {
      } else {
        assert Split(s)[1..] == rest[1..];
        assert Join(Split(s)) == [s[0]] + rest[0] + [Space] + Join(rest[1..]);
        assert s == [s[0]] + s[1..];
      }
    }
  }

  /** A join begins with its first piece. */
  lemma JoinStartsWithFirst(parts: seq<string>)
    requires |parts| >= 1
    ensures StartsWith(Join(parts), parts[0])
  {
    if |parts| > 1 {
      assert Join(parts)[..|parts[0]|] == parts[0];
    }
  }

  /** Splitting a join of space-free pieces restores the pieces. */
  lemma {:induction false} SplitJoin(parts: seq<string>)
    requires |parts| >= 1
    requires forall i :: 0 <= i < |parts| ==> Space !in parts[i]
    ensures Split(Join(parts)) == parts
    decreases |parts|, |parts[0]|
  {
    if |parts| == 1 {
      SplitNoSpace(parts[0]);
    } else if parts[0] == [] {
      var tail := parts[1..];
      SplitJoin(tail);
      JoinEmptyHead(parts);
      SplitSpaceCons(Join(tail));
      assert parts == [""] + tail;
    } else {
      var c := parts[0][0];
      var shorter := [parts[0][1..]] + parts[1..];
      ShorterNoSpace(parts);
      SplitJoin(shorter);
      JoinPeel(parts);
      SplitCons(c, Join(shorter));
      assert parts[0] == [c] + shorter[0];
      assert parts == [parts[0]] + shorter[1..];
    }
  }

  /** An empty first piece contributes only the separator. */
  lemma JoinEmptyHead(parts: seq<string>)
    requires |parts| >= 2 && parts[0] == []
    ensures Join(parts) == [Space] + Join(parts[1..])
  {
  }

  /** A leading space closes an empty first piece. */
  lemma SplitSpaceCons(t: string)
    ensures Split([Space] + t) == [""] + Split(t)
  {
    assert ([Space] + t)[1..] == t;
  }

  /** Dropping the first character of the first piece keeps every piece space-free. */
  lemma ShorterNoSpace(parts: seq<string>)
    requires |parts| >= 1 && parts[0] != []
    requires forall i :: 0 <= i < |parts| ==> Space !in parts[i]
    ensures forall i :: 0 <= i < |[parts[0][1..]] + parts[1..]| ==> Space !in ([parts[0][1..]] + parts[1..])[i]
  {
    var shorter := [parts[0][1..]] + parts[1..];
    forall i | 0 <= i < |shorter| ensures Space !in shorter[i] {
      if i > 0 { assert shorter[i] == parts[i]; }
    }
  }

  /** Taking the first character off the first piece takes it off the join. */
  lemma JoinPeel(parts: seq<string>)
    requires |parts| >= 1 && parts[0] != []
    ensures Join(parts) == [parts[0][0]] + Join([parts[0][1..]] + parts[1..])
  {
    var shorter := [parts[0][1..]] + parts[1..];
    assert parts[0] == [parts[0][0]] + parts[0][1..];
    if |parts| > 1 {
      assert shorter[1..] == parts[1..];
    }
  }

  /** A leading character that is not a space joins the first piece. */
  lemma SplitCons(c: char, t: string)
    requires c != Space
    ensures Split([c] + t) == [[c] + Split(t)[0]] + Split(t)[1..]
  {
    assert ([c] + t)[1..] == t;
  }

  /**
   * A space-join of a keyword, a word and any further pieces starts with
   * the keyword and has the word as token 1.
   */
  lemma SecondToken(keyword: string, word: string, rest: seq<string>)
    requires Space !in keyword && Space !in word
    ensures StartsWith(Join([keyword, word] + rest), keyword)
    ensures Token(Join([keyword, word] + rest), 1) == Some(word)
  {
    var parts := [keyword, word] + rest;
    var tail := Join([word] + rest);
    assert parts[1..] == [word] + rest;
    assert Join(parts) == keyword + [Space] + tail;
    assert Join(parts)[..|keyword|] == keyword;
    SplitWordSpace(keyword, tail);
    if rest == [] {
      SplitNoSpace(word);
    } else {
      assert ([word] + rest)[1..] == rest;
      SplitWordSpace(word, Join(rest));
    }
  }

  /** A space-free word followed by a space is the first piece; the rest splits on its own. */
  lemma {:induction false} SplitWordSpace(w: string, t: string)
    requires Space !in w
    ensures Split(w + [Space] + t) == [w] + Split(t)
    decreases |w|
  {
    if w == [] {
      assert w + [Space] + t == [Space] + t;
      SplitSpaceCons(t);
    } else {
      var after := w[1..] + [Space] + t;
      assert w + [Space] + t == [w[0]] + after;
      SplitWordSpace(w[1..], t);
      SplitCons(w[0], after);
      assert [w[0]] + w[1..] == w;
    }
  }

  /** A string without spaces splits into itself alone. */
  lemma {:induction false} SplitNoSpace(s: string)
    requires Space !in s
    ensures Split(s) == [s]
    decreases |s|
  {
    if s != [] {
      assert s[0] != Space;
      assert Space !in s[1..];
      SplitNoSpace(s[1..]);
      assert s == [s[0]] + s[1..];
    }
  }

  /** `hay.includes(needle)`, computed by scanning start positions. */
  predicate Includes(hay: string, needle: string)
    decreases |hay|
  {
    StartsWith(hay, needle) || (|hay| > 0 && Includes(hay[1..], needle))
  }

  /** `needle` occurs in `hay` at index `i`. */
  predicate OccursAt(hay: string, needle: string, i: int) {
    0 <= i && i + |needle| <= |hay| && hay[i..i + |needle|] == needle
  }

  /** Occurrence at index 0 is being a prefix. */
  lemma OccursAtStart(hay: string, needle: string)
    ensures OccursAt(hay, needle, 0) <==> StartsWith(hay, needle)
  {
  }

  /** Occurrences past index 0 are occurrences in the tail, one place earlier. */
  lemma OccursShift(hay: string, needle: string, i: int)
    requires |hay| > 0 && 0 < i
    ensures OccursAt(hay, needle, i) <==> OccursAt(hay[1..], needle, i - 1)
  {
    if i + |needle| <= |hay| {
      assert hay[1..][i - 1..i - 1 + |needle|] == hay[i..i + |needle|];
    }
  }

  /** The scan finds `needle` exactly when it occurs at some index. */
  lemma {:induction false} IncludesIff(hay: string, needle: string)
    ensures Includes(hay, needle) <==> exists i :: OccursAt(hay, needle, i)
    decreases |hay|
  {
    OccursAtStart(hay, needle);
    if StartsWith(hay, needle) {
      assert OccursAt(hay, needle, 0);
    } else if |hay| == 0 {
      assert forall i :: OccursAt(hay, needle, i) ==> i == 0;
    } else {
      IncludesIff(hay[1..], needle);
      forall i | 0 < i
        ensures OccursAt(hay, needle, i) <==> OccursAt(hay[1..], needle, i - 1)
      {
        OccursShift(hay, needle, i);
      }
      if Includes(hay[1..], needle) {
        var j :| OccursAt(hay[1..], needle, j);
        assert OccursAt(hay, needle, j + 1);
      }
    }
  }

  /** The empty string is included in every string, as in JavaScript. */
  lemma IncludesEmpty(hay: string)
    ensures Includes(hay, "")
  {
    assert StartsWith(hay, "");
  }

  /** `toLowerCase` on one character; only ASCII letters are mapped. */
  function LowerChar(c: char): (r: char)
    ensures 'A' <= c <= 'Z' ==> 'a' <= r <= 'z'
    ensures !('A' <= c <= 'Z') ==> r == c
  {
    if 'A' <= c <= 'Z' then (c as int - 'A' as int + 'a' as int) as char else c
  }

  /** `s.toLowerCase()`, restricted to ASCII letters. */
  function Lower(s: string): string {
    seq(|s|, i requires 0 <= i < |s| => LowerChar(s[i]))
  }

  /** Lower-casing twice is lower-casing once. */
  lemma LowerIdempotent(s: string)
    ensures Lower(Lower(s)) == Lower(s)
  {
  }

  /** Lower-casing leaves no upper-case ASCII letter behind. */
  lemma LowerHasNoCapitals(s: string)
    ensures forall i :: 0 <= i < |s| ==> !('A' <= Lower(s)[i] <= 'Z')
  {
  }

  function DigitChar(d: nat): char
    requires d < 10
  {
    ('0' as int + d) as char
  }

  predicate IsDigit(c: char) {
    '0' <= c <= '9'
  }

  /** The decimal text of a non-negative integer, as `${n}` renders it. */
  function NatToString(n: nat): (r: string)
    ensures |r| >= 1
    ensures forall i :: 0 <= i < |r| ==> IsDigit(r[i])
    ensures r[0] == '0' ==> n == 0
    decreases n
  {
    if n < 10 then [DigitChar(n)] else NatToString(n / 10) + [DigitChar(n % 10)]
  }

  /** Reads decimal digits back into a number. */
  function ParseDigits(s: string): nat
    requires forall i :: 0 <= i < |s| ==> IsDigit(s[i])
    decreases |s|
  {
    if s == [] then 0
    else
      var c := s[|s| - 1];
      assert IsDigit(c);
      ParseDigits(s[..|s| - 1]) * 10 + (c as int - '0' as int)
  }

  /** Decimal rendering loses nothing: parsing it gives the number back. */
  lemma {:induction false} ParseNatToString(n: nat)
    ensures ParseDigits(NatToString(n)) == n
    decreases n
  {
    if n >= 10 {
      ParseNatToString(n / 10);
      var s := NatToString(n);
      assert s[..|s| - 1] == NatToString(n / 10);
    }
  }
}
