/**
 Text and the library string operations the protocol is built from: `trim`, `split(char)`,
 `split_whitespace`, `join` and `eq_ignore_ascii_case`. A `char` is one Unicode scalar value.
 */
module Text {
  import opened Sequences
  import opened Utf8

  /** The characters with the Unicode property White_Space, which is what `char::is_whitespace` looks at. */
  predicate IsWs(c: char) {
    c == ' ' || '\t' <= c <= '\r' || (c as int >= 0x80 && IsWideWs(c))
  }

  predicate IsWideWs(c: char) {
    || c in {'\U{85}', '\U{A0}', '\U{1680}', '\U{2028}', '\U{2029}', '\U{202F}', '\U{205F}', '\U{3000}'}
    || '\U{2000}' <= c <= '\U{200A}'
  }

  ghost predicate AllWs(s: string) {
    forall i | 0 <= i < |s| :: IsWs(s[i])
  }

  /** A maximal run of `split_whitespace`: non-empty and free of whitespace. */
  ghost predicate IsWord(s: string) {
    s != "" && forall c | c in s :: !IsWs(c)
  }

  ghost predicate Trimmed(s: string) {
    s == "" || (!IsWs(s[0]) && !IsWs(s[|s| - 1]))
  }

  /** Every whitespace character is a single space. */
  ghost predicate Spaced(s: string) {
    forall i | 0 <= i < |s| && IsWs(s[i]) :: s[i] == ' ' && (i + 1 < |s| ==> !IsWs(s[i + 1]))
  }

  /** The texts that `split_whitespace` followed by `join(" ")` leaves alone. */
  ghost predicate Normal(s: string) {
    Spaced(s) && Trimmed(s)
  }

  function TrimStart(s: string): string {
    if s == "" || !IsWs(s[0]) then s else TrimStart(s[1..])
  }

  function TrimEnd(s: string): string {
    if s == "" || !IsWs(s[|s| - 1]) then s else TrimEnd(s[..|s| - 1])
  }

  function Trim(s: string): string {
    TrimEnd(TrimStart(s))
  }

  /** The parts of a text that starts with `c` and goes on with these parts. */
  function Grow(c: char, d: char, rest: seq<string>): (parts: seq<string>)
    requires rest != []
    ensures parts != []
  {
    if c == d then [""] + rest else [[c] + rest[0]] + rest[1..]
  }

  function Split(s: string, d: char): (parts: seq<string>)
    ensures parts != []
  {
    if s == "" then [""] else Grow(s[0], d, Split(s[1..], d))
  }

  function Join(parts: seq<string>, sep: string): string {
    if parts == [] then ""
    else if |parts| == 1 then parts[0]
    else parts[0] + (sep + Join(parts[1..], sep))
  }

  /** Length of the longest whitespace-free prefix. */
  function WordLength(s: string): (n: nat)
    ensures n <= |s|
    ensures forall i | 0 <= i < n :: !IsWs(s[i])
    ensures n < |s| ==> IsWs(s[n])
  {
    if s == "" || IsWs(s[0]) then 0 else 1 + WordLength(s[1..])
  }

  function SplitWs(s: string): seq<string>
    decreases |s|
  {
    if s == "" then []
    else if IsWs(s[0]) then SplitWs(s[1..])
    else
      var n := WordLength(s);
      assert n > 0;
      [s[..n]] + SplitWs(s[n..])
  }

  function Lower(c: char): char {
    if 'A' <= c <= 'Z' then c + 32 as char else c
  }

  predicate EqIgnoreCase(a: string, b: string) {
    |a| == |b| && forall i | 0 <= i < |a| :: Lower(a[i]) == Lower(b[i])
  }

  // ---------------------------------------------------------------- whitespace and letter case

  /** All characters with the property White_Space. */
  const WHITE_SPACE :=
    "\t\n\U{B}\U{C}\r \U{85}\U{A0}\U{1680}\U{2000}\U{2001}\U{2002}\U{2003}\U{2004}\U{2005}\U{2006}" +
    "\U{2007}\U{2008}\U{2009}\U{200A}\U{2028}\U{2029}\U{202F}\U{205F}\U{3000}"

  lemma WhiteSpaceExact(c: char)
    ensures IsWs(c) <==> c in WHITE_SPACE
  {
    assert WHITE_SPACE[0] == '\t' && WHITE_SPACE[6] == '\U{85}' && WHITE_SPACE[24] == '\U{3000}';
  }

  /** A capital ASCII letter and its small form. */
  predicate CasePair(x: char, y: char) {
    'A' <= x <= 'Z' && 'a' <= y <= 'z' && x as int - 'A' as int == y as int - 'a' as int
  }

  /** Two texts are equal but for case exactly when they agree in each place up to a capital and its small form. */
  lemma CaseExact(a: string, b: string)
    ensures EqIgnoreCase(a, b)
       <==> |a| == |b| && forall i | 0 <= i < |a| :: a[i] == b[i] || CasePair(a[i], b[i]) || CasePair(b[i], a[i])
  {
    if |a| == |b| {
      forall i | 0 <= i < |a|
        ensures Lower(a[i]) == Lower(b[i]) <==> a[i] == b[i] || CasePair(a[i], b[i]) || CasePair(b[i], a[i])
      {
        CaseOf(a[i], b[i]);
      }
    }
  }

  lemma CaseOf(x: char, y: char)
    ensures Lower(x) == Lower(y) <==> x == y || CasePair(x, y) || CasePair(y, x)
  {
  }

  /** Each letter is the capital or the small one. */
  predicate Mix(word: string, capitals: string, smalls: string)
    requires |capitals| == |smalls|
  {
    |word| == |capitals| && forall i | 0 <= i < |word| :: word[i] == capitals[i] || word[i] == smalls[i]
  }

  /** A word is a keyword in any letter case exactly when it is a mix of the keyword's capital and small letters. */
  lemma MixExact(word: string, capitals: string, smalls: string)
    requires |capitals| == |smalls| && forall i | 0 <= i < |capitals| :: CasePair(capitals[i], smalls[i])
    ensures EqIgnoreCase(word, capitals) <==> Mix(word, capitals, smalls)
  {
    if |word| == |capitals| {
      forall i | 0 <= i < |word|
        ensures Lower(word[i]) == Lower(capitals[i]) <==> word[i] == capitals[i] || word[i] == smalls[i]
      {
        CaseOf(word[i], capitals[i]);
      }
    }
  }

  // ---------------------------------------------------------------- trim

  lemma {:induction false} TrimStartSplits(s: string) returns (front: string)
    ensures s == front + TrimStart(s) && AllWs(front)
    ensures TrimStart(s) == "" || !IsWs(TrimStart(s)[0])
  {
    if s == "" || !IsWs(s[0]) {
      front := "";
    } else {
      var tail := s[1..];
      var f := TrimStartSplits(tail);
      front := [s[0]] + f;
      ConcatAssoc([s[0]], f, TrimStart(tail));
      assert s == [s[0]] + tail;
    }
  }

  lemma {:induction false} TrimEndSplits(s: string) returns (back: string)
    ensures s == TrimEnd(s) + back && AllWs(back)
    ensures TrimEnd(s) == "" || !IsWs(TrimEnd(s)[|TrimEnd(s)| - 1])
  {
    hide IsWs;
    if s == "" || !IsWs(s[|s| - 1]) {
      back := "";
    } else {
      var init, last := s[..|s| - 1], s[|s| - 1];
      var b := TrimEndSplits(init);
      back := b + [last];
      ConcatAssoc(TrimEnd(init), b, [last]);
      assert s == init + [last];
    }
  }

  /** `trim` removes whitespace only, from the two ends only, and all of it. */
  lemma TrimSplits(s: string) returns (front: string, back: string)
    ensures s == front + Trim(s) + back && AllWs(front) && AllWs(back)
    ensures Trimmed(Trim(s))
  {
    hide TrimStart, TrimEnd, IsWs;
    front := TrimStartSplits(s);
    back := TrimEndSplits(TrimStart(s));
    ConcatAssoc(front, Trim(s), back);
    var t := Trim(s);
    if t != "" {
      assert TrimStart(s)[0] == t[0];
    }
  }

  lemma {:induction false} TrimStartOf(front: string, t: string)
    requires AllWs(front)
    ensures TrimStart(front + t) == TrimStart(t)
  {
    if front == "" {
      assert front + t == t;
    } else {
      assert (front + t)[1..] == front[1..] + t;
      assert front[0] in front;
      TrimStartOf(front[1..], t);
    }
  }

  lemma {:induction false} TrimEndOf(t: string, back: string)
    requires AllWs(back)
    ensures TrimEnd(t + back) == TrimEnd(t)
  {
    if back == "" {
      assert t + back == t;
    } else {
      var n := |back| - 1;
      assert (t + back)[..|t + back| - 1] == t + back[..n];
      assert back[n] in back;
      TrimEndOf(t, back[..n]);
    }
  }

  /** The only trimmed text that differs from `s` by whitespace at its ends is `Trim(s)`. */
  lemma TrimUnique(front: string, t: string, back: string)
    requires AllWs(front) && AllWs(back) && Trimmed(t)
    ensures Trim(front + t + back) == t
  {
    assert front + t + back == front + (t + back);
    TrimStartOf(front, t + back);
    if t == "" {
      assert t + back == back + "";
      TrimStartOf(back, "");
    } else {
      assert (t + back)[0] == t[0];
      assert TrimStart(t + back) == t + back;
      TrimEndOf(t, back);
    }
  }

  lemma TrimOfTrimmed(t: string)
    requires Trimmed(t)
    ensures Trim(t) == t
  {
    TrimUnique("", t, "");
    assert "" + t + "" == t;
  }

  lemma TrimIdempotent(s: string)
    ensures Trim(Trim(s)) == Trim(s) && Trimmed(Trim(s)) && Size(Trim(s)) <= Size(s)
  {
    var front, back := TrimSplits(s);
    TrimOfTrimmed(Trim(s));
    SizeConcat(front + Trim(s), back);
    SizeConcat(front, Trim(s));
  }

  lemma TrimKeepsOut(s: string, c: char)
    requires c !in s
    ensures c !in Trim(s)
  {
    var front, back := TrimSplits(s);
    forall x | x in Trim(s) ensures x in s {
      assert x in front + Trim(s) + back;
    }
  }

  lemma TrimSpaced(s: string)
    requires Spaced(s)
    ensures Normal(Trim(s))
  {
    var front, back := TrimSplits(s);
    var t := Trim(s);
    forall i | 0 <= i < |t| && IsWs(t[i])
      ensures t[i] == ' ' && (i + 1 < |t| ==> !IsWs(t[i + 1]))
    {
      assert t[i] == s[|front| + i];
      if i + 1 < |t| {
        assert t[i + 1] == s[|front| + i + 1];
      }
    }
  }

  // ---------------------------------------------------------------- split and join

  lemma JoinSize(parts: seq<string>, sep: string)
    ensures |parts| > 1 ==> Size(Join(parts, sep)) == Size(parts[0]) + Size(sep) + Size(Join(parts[1..], sep))
  {
    if |parts| > 1 {
      SizeConcat(parts[0], sep + Join(parts[1..], sep));
      SizeConcat(sep, Join(parts[1..], sep));
    }
  }

  lemma {:induction false} JoinLength(parts: seq<string>, i: nat, sep: string)
    requires i < |parts|
    ensures Size(parts[i]) <= Size(Join(parts, sep))
  {
    JoinSize(parts, sep);
    if i > 0 {
      assert parts[i] == parts[1..][i - 1];
      JoinLength(parts[1..], i - 1, sep);
    }
  }

  lemma ConcatWithout(a: string, b: string, c: char)
    requires c !in a && c !in b
    ensures c !in a + b
  {
  }

  lemma {:induction false} JoinWithout(parts: seq<string>, sep: string, c: char)
    requires c !in sep && forall p | p in parts :: c !in p
    ensures c !in Join(parts, sep)
  {
    if |parts| > 1 {
      forall p | p in parts[1..] ensures p in parts {}
      JoinWithout(parts[1..], sep, c);
      ConcatWithout(sep, Join(parts[1..], sep), c);
      ConcatWithout(parts[0], sep + Join(parts[1..], sep), c);
    }
  }

  lemma {:induction false} SplitNone(s: string, d: char)
    requires d !in s
    ensures Split(s, d) == [s]
  {
    if s != "" {
      assert s == [s[0]] + s[1..];
      SplitNone(s[1..], d);
    }
  }

  lemma {:induction false} SplitFirst(a: string, d: char, rest: string)
    requires d !in a
    ensures Split(a + ([d] + rest), d) == [a] + Split(rest, d)
  {
    var s := a + ([d] + rest);
    if a == "" {
      assert s[1..] == rest;
    } else {
      assert s[1..] == a[1..] + ([d] + rest);
      SplitFirst(a[1..], d, rest);
      assert [a[0]] + a[1..] == a;
    }
  }

  /** Splitting undoes joining for every non-empty list of separator-free parts. */
  lemma {:induction false} SplitOfJoin(parts: seq<string>, d: char)
    requires parts != [] && forall p | p in parts :: d !in p
    ensures Split(Join(parts, [d]), d) == parts
  {
    if |parts| == 1 {
      SplitNone(parts[0], d);
    } else {
      SplitFirst(parts[0], d, Join(parts[1..], [d]));
      SplitOfJoin(parts[1..], d);
    }
  }

  /** Joining undoes splitting, and no part holds the separator. */
  lemma {:induction false} JoinOfSplit(s: string, d: char)
    ensures Join(Split(s, d), [d]) == s
    ensures forall p | p in Split(s, d) :: d !in p
  {
    hide Grow, Join;
    if s == "" {
      JoinOne("", [d]);
    } else {
      JoinOfSplit(s[1..], d);
      JoinOfGrow(s[0], d, Split(s[1..], d));
      assert s == [s[0]] + s[1..];
    }
  }

  lemma JoinOne(s: string, sep: string)
    ensures Join([s], sep) == s
  {
  }

  lemma JoinFour(a: string, b: string, c: string, d: string, sep: string)
    ensures Join([a, b, c, d], sep) == a + (sep + (b + (sep + (c + (sep + d)))))
  {
    assert [a, b, c, d][1..] == [b, c, d];
    assert [b, c, d][1..] == [c, d];
    JoinTwo(c, d, sep);
  }

  lemma JoinTwo(a: string, b: string, sep: string)
    ensures Join([a, b], sep) == a + (sep + b)
  {
    assert [a, b][1..] == [b];
  }

  lemma JoinOfGrow(c: char, d: char, rest: seq<string>)
    requires rest != [] && forall p | p in rest :: d !in p
    ensures Join(Grow(c, d, rest), [d]) == [c] + Join(rest, [d])
    ensures forall p | p in Grow(c, d, rest) :: d !in p
  {
    if c == d {
      assert ([""] + rest)[1..] == rest;
      assert Join([""] + rest, [d]) == "" + ([d] + Join(rest, [d]));
    } else {
      var parts := [[c] + rest[0]] + rest[1..];
      assert parts[1..] == rest[1..] && rest[0] in rest;
      forall p | p in rest[1..] ensures p in rest {}
      if |rest| > 1 {
        ConcatAssoc([c], rest[0], [d] + Join(rest[1..], [d]));
      }
    }
  }

  /** Splitting at a separator splits both sides on their own. */
  lemma {:induction false} SplitConcat(a: string, d: char, rest: string)
    ensures Split(a + ([d] + rest), d) == Split(a, d) + Split(rest, d)
  {
    hide Grow;
    var s := a + ([d] + rest);
    if a == "" {
      assert s[1..] == rest;
      GrowAtSeparator(d, Split(rest, d));
    } else {
      assert s[0] == a[0] && s[1..] == a[1..] + ([d] + rest);
      SplitConcat(a[1..], d, rest);
      GrowConcat(a[0], d, Split(a[1..], d), Split(rest, d));
    }
  }

  lemma GrowAtSeparator(d: char, rest: seq<string>)
    requires rest != []
    ensures Grow(d, d, rest) == [""] + rest
  {
  }

  lemma GrowConcat(c: char, d: char, left: seq<string>, right: seq<string>)
    requires left != []
    ensures Grow(c, d, left + right) == Grow(c, d, left) + right
  {
    assert (left + right)[0] == left[0] && (left + right)[1..] == left[1..] + right;
  }

  lemma SplitCount(a: string, d: char)
    ensures |Split(a, d)| >= 2 <==> d in a
  {
    JoinOfSplit(a, d);
    assert Split(a, d)[0] in Split(a, d);
    if d !in a {
      SplitNone(a, d);
    }
  }

  // ---------------------------------------------------------------- whitespace words

  lemma {:induction false} SplitWsWords(s: string)
    ensures forall w | w in SplitWs(s) :: IsWord(w)
    decreases |s|
  {
    if s == "" {
    } else if IsWs(s[0]) {
      SplitWsWords(s[1..]);
    } else {
      var n := WordLength(s);
      assert n > 0;
      assert IsWord(s[..n]);
      SplitWsWords(s[n..]);
    }
  }

  lemma {:induction false} WordLengthOf(w: string, rest: string)
    requires forall c | c in w :: !IsWs(c)
    requires rest == "" || IsWs(rest[0])
    ensures WordLength(w + rest) == |w|
  {
    if w == "" {
      assert w + rest == rest;
    } else {
      assert w[0] in w;
      assert (w + rest)[1..] == w[1..] + rest;
      WordLengthOf(w[1..], rest);
    }
  }

  lemma SplitWsFirst(w: string, rest: string)
    requires IsWord(w)
    requires rest == "" || IsWs(rest[0])
    ensures SplitWs(w + rest) == [w] + SplitWs(rest)
  {
    WordLengthOf(w, rest);
    assert w[0] in w;
    assert (w + rest)[0] == w[0];
    assert (w + rest)[..|w|] == w && (w + rest)[|w|..] == rest;
  }

  lemma {:induction false} SplitWsLeading(gap: string, rest: string)
    requires AllWs(gap)
    ensures SplitWs(gap + rest) == SplitWs(rest)
  {
    if gap == "" {
      assert gap + rest == rest;
    } else {
      assert (gap + rest)[0] == gap[0] && (gap + rest)[1..] == gap[1..] + rest;
      SplitWsLeading(gap[1..], rest);
    }
  }

  /** Whitespace of any kind and length separates words; none of it is in them. */
  lemma SplitWsApart(w: string, gap: string, rest: string)
    requires IsWord(w) && AllWs(gap) && gap != ""
    ensures SplitWs(w + (gap + rest)) == [w] + SplitWs(rest)
  {
    assert (gap + rest)[0] == gap[0];
    SplitWsFirst(w, gap + rest);
    SplitWsLeading(gap, rest);
  }

  lemma SplitWsAfterSpace(w: string, rest: string)
    requires IsWord(w)
    ensures SplitWs(w + (" " + rest)) == [w] + SplitWs(rest)
  {
    SplitWsFirst(w, " " + rest);
    assert (" " + rest)[1..] == rest;
  }

  lemma SplitWsWord(w: string)
    requires IsWord(w)
    ensures SplitWs(w) == [w]
  {
    assert w + "" == w;
    SplitWsFirst(w, "");
  }

  /** Re-joining words with single spaces never makes the text longer. */
  lemma {:induction false} RejoinLength(s: string)
    ensures Size(Join(SplitWs(s), " ")) <= Size(s)
    decreases |s|
  {
    if s == "" {
    } else if IsWs(s[0]) {
      RejoinLength(s[1..]);
    } else {
      var n := WordLength(s);
      assert n > 0;
      var tail, words := SplitWs(s[n..]), SplitWs(s);
      assert words == [s[..n]] + tail && words[1..] == tail;
      assert s == s[..n] + s[n..];
      SizeConcat(s[..n], s[n..]);
      JoinSize(words, " ");
      AsciiSize(" ");
      RejoinLength(s[n..]);
      if n < |s| {
        // The character after the word is whitespace and pays for the joining space.
        assert tail == SplitWs(s[n..][1..]);
        RejoinLength(s[n..][1..]);
      }
    }
  }

  lemma SpacedAround(a: string, sep: char, b: string)
    requires Normal(a) && Spaced(b) && a != ""
    requires !IsWs(sep) || (sep == ' ' && b != "" && !IsWs(b[0]))
    ensures Spaced(a + ([sep] + b))
  {
    var s := a + ([sep] + b);
    forall i | 0 <= i < |s| && IsWs(s[i])
      ensures s[i] == ' ' && (i + 1 < |s| ==> !IsWs(s[i + 1]))
    {
      if i < |a| {
        assert s[i] == a[i];
        assert i != |a| - 1;
        assert s[i + 1] == a[i + 1];
      } else if i > |a| {
        assert s[i] == b[i - |a| - 1];
        if i + 1 < |s| {
          assert s[i + 1] == b[i - |a|];
        }
      }
    }
  }

  /** Joining non-empty normal parts, with commas or with spaces between words, is normal. */
  lemma {:induction false} JoinNormal(parts: seq<string>, sep: char)
    requires forall p | p in parts :: p != "" && Normal(p)
    requires sep == ' ' || !IsWs(sep)
    ensures Normal(Join(parts, [sep]))
    ensures parts != [] ==> Join(parts, [sep]) != ""
  {
    if |parts| > 1 {
      var rest := Join(parts[1..], [sep]);
      forall p | p in parts[1..] ensures p in parts {}
      JoinNormal(parts[1..], sep);
      assert parts[0] in parts;
      SpacedAround(parts[0], sep, rest);
      var s := parts[0] + ([sep] + rest);
      assert s[0] == parts[0][0] && s[|s| - 1] == rest[|rest| - 1];
    } else if |parts| == 1 {
      assert parts[0] in parts;
    }
  }

  /** Whitespace-free words joined with single spaces. */
  lemma WordsNormal(words: seq<string>)
    requires forall w | w in words :: IsWord(w)
    ensures Normal(Join(words, " "))
  {
    forall w | w in words ensures w != "" && Normal(w) {
      assert IsWord(w);
      assert w[0] in w && w[|w| - 1] in w;
    }
    JoinNormal(words, ' ');
  }

  lemma SpacedTail(s: string, n: nat)
    requires n <= |s| && Spaced(s)
    ensures Spaced(s[n..])
  {
    var t := s[n..];
    forall i | 0 <= i < |t| && IsWs(t[i])
      ensures t[i] == ' ' && (i + 1 < |t| ==> !IsWs(t[i + 1]))
    {
      assert t[i] == s[n + i];
    }
  }

  lemma NormalAfterWord(s: string, n: nat)
    requires Normal(s) && n < |s| && IsWs(s[n])
    ensures n + 1 < |s| && s[n] == ' ' && Normal(s[n + 1..])
    ensures s == s[..n] + (" " + s[n + 1..])
  {
    SpacedTail(s, n + 1);
    var rest := s[n + 1..];
    assert rest[|rest| - 1] == s[|s| - 1];
  }

  /** Splitting a normal text into words and joining them with single spaces gives it back. */
  lemma {:induction false} RejoinOfNormal(s: string)
    requires Normal(s)
    ensures Join(SplitWs(s), " ") == s
    ensures s != "" ==> SplitWs(s) != []
    decreases |s|
  {
    if s != "" {
      var n := WordLength(s);
      assert IsWord(s[..n]);
      if n < |s| {
        NormalAfterWord(s, n);
        var rest := s[n + 1..];
        RejoinOfNormal(rest);
        SplitWsAfterSpace(s[..n], rest);
        assert ([s[..n]] + SplitWs(rest))[1..] == SplitWs(rest);
      } else {
        assert s[..n] == s;
        SplitWsWord(s);
      }
    }
  }

  /** A comma-separated piece of a normal text is still single-spaced. */
  lemma {:induction false} SplitSpaced(s: string, d: char)
    requires Spaced(s)
    ensures forall p | p in Split(s, d) :: Spaced(p)
  {
    if s != "" {
      var t := s[1..];
      SpacedTail(s, 1);
      SplitSpaced(t, d);
      var rest := Split(t, d);
      JoinOfSplit(t, d);
      if s[0] != d {
        var p := [s[0]] + rest[0];
        assert rest[0] in rest;
        SplitStartsText(t, d);
        assert rest[0] != "" ==> rest[0][0] == t[0];
        assert Spaced(p) by {
          forall i | 0 <= i < |p| && IsWs(p[i]) ensures p[i] == ' ' && (i + 1 < |p| ==> !IsWs(p[i + 1])) {
            if i == 0 {
              if 1 < |p| { assert p[1] == s[1]; }
            } else {
              assert p[i] == rest[0][i - 1];
            }
          }
        }
      }
    }
  }

  lemma SplitStartsText(s: string, d: char)
    ensures Split(s, d)[0] <= s
  {
    JoinOfSplit(s, d);
    var parts := Split(s, d);
    if |parts| > 1 {
      assert Join(parts, [d]) == parts[0] + ([d] + Join(parts[1..], [d]));
    }
  }
}
