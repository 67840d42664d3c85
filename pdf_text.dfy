/** Text helpers of the estimate parser (parse-pdf-mirroring-3-13/lambda_function.py):
    the heading normaliser `lowercase_and_remove_spaces` with its prefix-square collapse
    `remove_duplicates`, and the duplicated-cell detector and collapser built on the regular
    expression `(.*?)\1+$` (`is_duplicated_text` anchors it with `re.match`,
    `remove_duplicated_text` searches for it with `re.sub`). */
module PdfText {
  import opened Wrappers
  import opened PyText

  // ---------------------------------------------------------------------------------------
  // remove_duplicates and lowercase_and_remove_spaces
  // ---------------------------------------------------------------------------------------

  /** `s` starts with a square of length `2 * i`: `s[:i] == s[i:2*i]`. */
  predicate SquarePrefix(s: string, i: int) {
    1 <= i && 2 * i <= |s| && s[..i] == s[i..2 * i]
  }

  /** The scan of `remove_duplicates` from candidate length `i` on. */
  function RemoveDuplicatesFrom(s: string, i: nat): (r: string)
    requires 1 <= i
    requires forall j :: 1 <= j < i ==> !SquarePrefix(s, j)
    ensures |r| <= |s| && r == s[..|r|]
    ensures r != s ==> SquarePrefix(s, |r|) && forall j :: 1 <= j < |r| ==> !SquarePrefix(s, j)
    ensures r == s ==> forall j :: 1 <= j ==> !SquarePrefix(s, j)
    decreases |s| - i
  {
    if 2 * i > |s| then s
    else if s[..i] == s[i..2 * i] then s[..i]
    else RemoveDuplicatesFrom(s, i + 1)
  }

  /** `remove_duplicates(s)`: the first half of the shortest square prefix of `s`, or `s`. */
  function RemoveDuplicates(s: string): string {
    RemoveDuplicatesFrom(s, 1)
  }

  /** What `remove_duplicates` returns: a prefix of its input; when it shortens `s` to `r`,
      `s` starts with `r + r` and no shorter prefix is squared; otherwise `s` has no square
      prefix at all. */
  lemma RemoveDuplicatesSpec(s: string)
    ensures var r := RemoveDuplicates(s);
      && r == s[..|r|]
      && (r != s ==> |r| >= 1 && s[..2 * |r|] == r + r
                     && forall j :: 1 <= j < |r| ==> !SquarePrefix(s, j))
      && (r == s ==> forall j :: 1 <= j ==> !SquarePrefix(s, j))
  {
    var r := RemoveDuplicates(s);
    if r != s {
      assert s[..2 * |r|] == s[..|r|] + s[|r|..2 * |r|];
    }
  }

  /** The result of `remove_duplicates` has no square prefix. */
  lemma RemoveDuplicatesNoSquare(s: string)
    ensures forall j :: 1 <= j ==> !SquarePrefix(RemoveDuplicates(s), j)
  {
    var r := RemoveDuplicates(s);
    if r != s {
      forall j | 1 <= j ensures !SquarePrefix(r, j) {
        if 2 * j <= |r| {
          assert !SquarePrefix(s, j);
          assert r[..j] == s[..j] && r[j..2 * j] == s[j..2 * j];
        }
      }
    }
  }

  /** `remove_duplicates` is idempotent. */
  lemma RemoveDuplicatesIdempotent(s: string)
    ensures RemoveDuplicates(RemoveDuplicates(s)) == RemoveDuplicates(s)
  {
    var r := RemoveDuplicates(s);
    RemoveDuplicatesNoSquare(s);
    var rr := RemoveDuplicates(r);
    assert !SquarePrefix(r, |rr|);
  }

  /** `input_str.lower()`, with lower-casing given as a map on characters. */
  function Lowercase(s: string, lower: char -> char): (r: string)
    ensures |r| == |s| && forall i :: 0 <= i < |s| ==> r[i] == lower(s[i])
  {
    if s == [] then [] else [lower(s[0])] + Lowercase(s[1..], lower)
  }

  /** `lowercase_and_remove_spaces(input_str)`: lower-case, drop every blank, delete every
      "laborpart", then collapse a square prefix. */
  function LowercaseAndRemoveSpaces(input: string, lower: char -> char): (r: string)
    ensures ' ' !in r
    ensures var squeezed := DeleteAll(DeleteChar(Lowercase(input, lower), ' '), "laborpart");
      |r| <= |squeezed| && r == squeezed[..|r|]
  {
    var squeezed := DeleteAll(DeleteChar(Lowercase(input, lower), ' '), "laborpart");
    RemoveDuplicatesSpec(squeezed);
    RemoveDuplicates(squeezed)
  }

  // ---------------------------------------------------------------------------------------
  // The pattern (.*?)\1+$ : is_duplicated_text and remove_duplicated_text
  // ---------------------------------------------------------------------------------------

  /** `g * n` in Python. */
  function Repeat(g: string, n: nat): (r: string)
    ensures |r| == n * |g|
  {
    if n == 0 then "" else g + Repeat(g, n - 1)
  }

  /** `u` is one or more back-to-back copies of the non-empty block `g`. */
  predicate CopiesOf(u: string, g: string)
    requires |g| > 0
    decreases |u|
  {
    |u| >= |g| && u[..|g|] == g && (|u| == |g| || CopiesOf(u[|g|..], g))
  }

  lemma {:induction false} RepeatIsCopies(g: string, n: nat)
    requires |g| > 0 && n >= 1
    ensures CopiesOf(Repeat(g, n), g)
  {
    var u := Repeat(g, n);
    assert u[..|g|] == g && u[|g|..] == Repeat(g, n - 1);
    if n > 1 { RepeatIsCopies(g, n - 1); }
  }

  lemma {:induction false} CopiesAreRepeat(u: string, g: string) returns (n: nat)
    requires |g| > 0 && CopiesOf(u, g)
    ensures n >= 1 && u == Repeat(g, n)
    decreases |u|
  {
    if |u| == |g| {
      n := 1;
      assert u == u[..|g|];
    } else {
      var m := CopiesAreRepeat(u[|g|..], g);
      n := m + 1;
      assert u == u[..|g|] + u[|g|..];
    }
  }

  /** A string that is a copy of its first `k` characters and at least twice as long is two or
      more copies of that block. */
  lemma TwoOrMoreCopies(u: string, k: nat) returns (n: nat)
    requires 1 <= k && 2 * k <= |u| && CopiesOf(u, u[..k])
    ensures n >= 2 && u == Repeat(u[..k], n)
  {
    var g := u[..k];
    var m := CopiesAreRepeat(u[k..], g);
    n := m + 1;
    assert u == g + u[k..];
  }

  /** `u` is `n >= 2` copies of one non-empty block: what `\1+$` after `(.*?)` accepts. */
  ghost predicate IsRepetition(u: string) {
    exists g: string, n: nat :: |g| > 0 && n >= 2 && u == Repeat(g, n)
  }

  /** The length of the shortest block, not shorter than `k`, of which `u` is two or more
      copies: the lazy group `(.*?)` tries its lengths in increasing order. */
  function ShortestBlockFrom(u: string, k: nat): (r: Option<nat>)
    requires k >= 1
    ensures r.Some? ==> k <= r.value && 2 * r.value <= |u| && CopiesOf(u, u[..r.value])
    ensures r.Some? ==> forall j :: k <= j < r.value ==> !CopiesOf(u, u[..j])
    ensures r.None? ==> forall j :: k <= j && 2 * j <= |u| ==> !CopiesOf(u, u[..j])
    decreases |u| - k
  {
    if 2 * k > |u| then None
    else if CopiesOf(u, u[..k]) then Some(k)
    else ShortestBlockFrom(u, k + 1)
  }

  /** A block of which `u` is two or more copies is a prefix of `u`, at most half as long. */
  lemma RepetitionBlock(u: string, g: string, n: nat)
    requires |g| > 0 && n >= 2 && u == Repeat(g, n)
    ensures 2 * |g| <= |u| && u[..|g|] == g && CopiesOf(u, u[..|g|])
  {
    assert u == g + Repeat(g, n - 1);
    assert u[..|g|] == g;
    RepeatIsCopies(g, n);
  }

  /** Two or more copies of a non-empty block, read off `ShortestBlockFrom`. */
  lemma ShortestBlockIffRepetition(u: string)
    ensures ShortestBlockFrom(u, 1).Some? <==> IsRepetition(u)
  {
    var r := ShortestBlockFrom(u, 1);
    if r.Some? {
      var k := r.value;
      var n := TwoOrMoreCopies(u, k);
      assert |u[..k]| > 0 && n >= 2 && u == Repeat(u[..k], n);
    }
    if IsRepetition(u) {
      var g: string, n: nat :| |g| > 0 && n >= 2 && u == Repeat(g, n);
      RepetitionBlock(u, g, n);
    }
  }

  /** `is_duplicated_text(text)`: false for the empty string; otherwise `re.match` of
      `(.*?)\1+$` on the text with its newlines removed. */
  function IsDuplicatedText(text: string): bool {
    var t := DeleteChar(text, '\n');
    text != "" && (t == "" || ShortestBlockFrom(t, 1).Some?)
  }

  /** `is_duplicated_text` holds exactly when the text is non-empty and its newline-free form is
      empty or two or more copies of one non-empty block. */
  lemma IsDuplicatedTextSpec(text: string)
    ensures IsDuplicatedText(text) <==>
      text != "" && (DeleteChar(text, '\n') == "" || IsRepetition(DeleteChar(text, '\n')))
  {
    ShortestBlockIffRepetition(DeleteChar(text, '\n'));
  }

  /** Where `re.sub` finds the leftmost match of `(.*?)\1+$` at a position `>= p` that is not
      the end of `u`: that position and the length of its shortest block. */
  function LeftmostRepetitionFrom(u: string, p: nat): (r: Option<(nat, nat)>)
    requires p <= |u|
    ensures r.Some? ==> p <= r.value.0 && 1 <= r.value.1 && r.value.0 + 2 * r.value.1 <= |u|
    ensures r.Some? ==> ShortestBlockFrom(u[r.value.0..], 1) == Some(r.value.1)
    ensures r.Some? ==> forall q :: p <= q < r.value.0 ==> ShortestBlockFrom(u[q..], 1).None?
    ensures r.None? ==> forall q :: p <= q <= |u| ==> ShortestBlockFrom(u[q..], 1).None?
    decreases |u| - p
  {
    if p == |u| then None
    else match ShortestBlockFrom(u[p..], 1)
      case Some(k) => Some((p, k))
      case None => LeftmostRepetitionFrom(u, p + 1)
  }

  /** `remove_duplicated_text(text)`: an empty text is returned as it is; otherwise the newlines
      are removed and the leftmost match is replaced by its group, keeping what precedes it.
      The empty match at the very end replaces nothing. */
  function RemoveDuplicatedText(text: string): string {
    if text == "" then text
    else
      var t := DeleteChar(text, '\n');
      match LeftmostRepetitionFrom(t, 0)
      case Some((p, k)) => t[..p] + t[p..p + k]
      case None => t
  }

  /** `remove_duplicated_text` drops every newline of a non-empty text. */
  lemma RemoveDuplicatedTextNoNewline(text: string)
    ensures text != "" ==> '\n' !in RemoveDuplicatedText(text)
  {
    if text != "" {
      var t := DeleteChar(text, '\n');
      assert forall i, j | 0 <= i <= j <= |t| :: '\n' !in t[i..j] by {
        forall i, j | 0 <= i <= j <= |t| ensures '\n' !in t[i..j] {
          assert forall x :: x in t[i..j] ==> x in t;
        }
      }
    }
  }

  /** On a text whose newline-free form is two or more copies of a block, `remove_duplicated_text`
      returns the shortest such block ("ABCABC" becomes "ABC"). */
  lemma RemoveDuplicatedTextCollapses(text: string)
    requires IsRepetition(DeleteChar(text, '\n'))
    ensures var t, r := DeleteChar(text, '\n'), RemoveDuplicatedText(text);
      && |r| > 0 && t[..|r|] == r
      && (exists n: nat :: n >= 2 && t == Repeat(r, n))
      && forall g: string, n: nat :: |g| > 0 && n >= 2 && t == Repeat(g, n) ==> |r| <= |g|
  {
    var t := DeleteChar(text, '\n');
    ShortestBlockIffRepetition(t);
    assert t[0..] == t;
    var k := ShortestBlockFrom(t, 1).value;
    assert LeftmostRepetitionFrom(t, 0) == Some((0, k));
    var r := RemoveDuplicatedText(text);
    assert r == t[..k];
    var n := TwoOrMoreCopies(t, k);
    forall g: string, m: nat | |g| > 0 && m >= 2 && t == Repeat(g, m) ensures |r| <= |g| {
      RepetitionBlock(t, g, m);
    }
  }

  /** An empty text is returned unchanged by both helpers, and it is not a duplicate. */
  lemma EmptyTextUnchanged()
    ensures RemoveDuplicatedText("") == "" && !IsDuplicatedText("")
  {
  }

  /** Copies of `g` repeat with period `|g|`. */
  lemma {:induction false} CopiesArePeriodic(u: string, g: string, j: nat)
    requires |g| > 0 && CopiesOf(u, g) && j + |g| < |u|
    ensures u[j + |g|] == u[j]
    decreases |u|
  {
    var rest := u[|g|..];
    if j < |g| {
      assert u[j] == u[..|g|][j] && rest[j] == rest[..|g|][j];
    } else {
      CopiesArePeriodic(rest, g, j - |g|);
    }
  }

  /** A character that breaks the period of the block `u[..k]` rules that block out. */
  lemma NotCopiesOfBlock(u: string, k: nat, j: nat)
    requires 1 <= k && j + k < |u| && u[j + k] != u[j]
    ensures !CopiesOf(u, u[..k])
  {
    if CopiesOf(u, u[..k]) {
      CopiesArePeriodic(u, u[..k], j);
    }
  }

  /** No suffix of "200.00" longer than "00" is a repetition. */
  lemma NoRepetitionBefore00()
    ensures ShortestBlockFrom("200.00", 1) == None
    ensures ShortestBlockFrom("00.00", 1) == None
    ensures ShortestBlockFrom("0.00", 1) == None
    ensures ShortestBlockFrom(".00", 1) == None
  {
    NoRepetition200();
    NoRepetition00_00();
    NoRepetition0_00();
    NotCopiesOfBlock(".00", 1, 0);
  }

  lemma NoRepetition200()
    ensures ShortestBlockFrom("200.00", 1) == None
  {
    var t := "200.00";
    NotCopiesOfBlock(t, 1, 0);
    NotCopiesOfBlock(t, 2, 1);
    NotCopiesOfBlock(t, 3, 0);
  }

  lemma NoRepetition00_00()
    ensures ShortestBlockFrom("00.00", 1) == None
  {
    var t := "00.00";
    NotCopiesOfBlock(t, 1, 1);
    NotCopiesOfBlock(t, 2, 0);
  }

  lemma NoRepetition0_00()
    ensures ShortestBlockFrom("0.00", 1) == None
  {
    var t := "0.00";
    NotCopiesOfBlock(t, 1, 0);
    NotCopiesOfBlock(t, 2, 1);
  }

  /** `re.sub` searches: a text that is not a repetition still loses the repeat in its tail,
      "200.00" becomes "200.0". */
  lemma RemoveDuplicatedTextSearches()
    ensures !IsDuplicatedText("200.00")
    ensures RemoveDuplicatedText("200.00") == "200.0"
  {
    NoRepetitionBefore00();
    Remove200();
  }

  /** The leftmost repetition of "200.00" is the final "00", at position 4. */
  lemma Remove200()
    ensures RemoveDuplicatedText("200.00") == "200.0"
  {
    var t := "200.00";
    assert DeleteChar(t, '\n') == t;
    NoRepetitionBefore00();
    LeftmostIn200();
  }

  lemma LeftmostIn200()
    ensures LeftmostRepetitionFrom("200.00", 0) == Some((4, 1))
  {
    var t := "200.00";
    NoRepetitionBefore00();
    assert t[0..] == t && t[1..] == "00.00" && t[2..] == "0.00" && t[3..] == ".00" && t[4..] == "00";
    assert CopiesOf("00", "0");
    assert ShortestBlockFrom("00", 1) == Some(1);
  }

  /** "abbabb" is three characters repeated, and no shorter block repeats it. */
  lemma ShortestBlockAbbabb()
    ensures ShortestBlockFrom("abbabb", 1) == Some(3)
  {
    var t := "abbabb";
    NotCopiesOfBlock(t, 1, 0);
    NotCopiesOfBlock(t, 2, 0);
    assert t[..3] == "abb" && t[3..] == "abb";
    assert CopiesOf(t[3..], "abb");
  }

  /** `remove_duplicated_text` is not idempotent: "abbabb" becomes "abb", which becomes "ab". */
  lemma RemoveDuplicatedTextNotIdempotent()
    ensures RemoveDuplicatedText("abbabb") == "abb"
    ensures RemoveDuplicatedText("abb") == "ab"
  {
    RemoveAbbabb();
    RemoveAbb();
  }

  lemma RemoveAbbabb()
    ensures RemoveDuplicatedText("abbabb") == "abb"
  {
    var t := "abbabb";
    assert DeleteChar(t, '\n') == t;
    ShortestBlockAbbabb();
    assert t[0..] == t;
    assert LeftmostRepetitionFrom(t, 0) == Some((0, 3));
  }

  lemma RemoveAbb()
    ensures RemoveDuplicatedText("abb") == "ab"
  {
    var u := "abb";
    assert DeleteChar(u, '\n') == u;
    NotCopiesOfBlock(u, 1, 0);
    assert u[0..] == u && ShortestBlockFrom(u, 1) == None;
    assert u[1..] == "bb" && CopiesOf("bb", "b");
    assert ShortestBlockFrom(u[1..], 1) == Some(1);
    assert LeftmostRepetitionFrom(u, 0) == Some((1, 1));
  }
}
