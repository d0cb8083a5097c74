// `SQLValidator.sanitize_query` (src/sql_validator.py): remove `--` line
// comments, then `/* ... */` block comments, then collapse every run of
// whitespace to a single space and strip both ends.
module Sanitize {
  import opened Options
  import opened Text

  /** No `a` is immediately followed by `b`. */
  predicate NoPair(s: string, a: char, b: char) {
    forall k | 0 <= k < |s| - 1 :: !(s[k] == a && s[k + 1] == b)
  }

  // A `/*` followed, at or after the next index, by a `*/`: a comment the
  // lazy pattern `/\*.*?\*/` would match.
  predicate HasBlockComment(s: string) {
    exists i, j | 0 <= i && i + 2 <= j <= |s| :: OccursAt(s, "/*", i) && OccursAt(s, "*/", j)
  }

  /** The shape `' '.join(s.split())` produces: no whitespace at either end,
      and every whitespace character is a single space between two
      non-whitespace characters. */
  predicate Collapsed(r: string) {
    (|r| > 0 ==> !IsSpace(r[0]) && !IsSpace(r[|r| - 1])) &&
    forall k | 0 <= k < |r| - 1 :: IsSpace(r[k]) ==> r[k] == ' ' && !IsSpace(r[k + 1])
  }

  /** `re.sub(r'--.*$', '', s, flags=re.MULTILINE)`: every `--` and the rest
      of its line go; the line break itself stays. */
  function StripLineComments(s: string): (r: string)
    ensures |r| <= |s|
    ensures |r| == |s| ==> r == s
    ensures NoPair(r, '-', '-')
    ensures |s| > 0 && !OccursAt(s, "--", 0) ==> |r| > 0 && r[0] == s[0]
    ensures |s| > 0 && OccursAt(s, "--", 0) ==> r == [] || r[0] == '\n'
    decreases |s|
  {
    if |s| == 0 then []
    else if OccursAt(s, "--", 0) then
      var n := LineEnd(s, 2);
      var r := StripLineComments(s[n..]);
      assert n < |s| ==> s[n..][0] == '\n' && !OccursAt(s[n..], "--", 0);
      r
    else
      var r := StripLineComments(s[1..]);
      assert |s| > 1 ==> s[..2] == [s[0], s[1]];
      [s[0]] + r
  }

  // The first `*/` that starts at or after `i`, if there is one.
  function FindClose(s: string, i: nat): (r: Option<nat>)
    requires i <= |s|
    ensures r.Some? ==> i <= r.value && OccursAt(s, "*/", r.value)
    ensures r.Some? ==> forall k | i <= k < r.value :: !OccursAt(s, "*/", k)
    ensures r.None? ==> forall k | i <= k <= |s| :: !OccursAt(s, "*/", k)
    decreases |s| - i
  {
    if i + 2 > |s| then None
    else if OccursAt(s, "*/", i) then Some(i)
    else FindClose(s, i + 1)
  }

  // `re.sub(r'/\*.*?\*/', '', s, flags=re.DOTALL)`: every `/*` up to the
  // first `*/` after it goes; a `/*` that is never closed stays.
  function StripBlockComments(s: string): (r: string)
    ensures |r| <= |s|
    ensures |r| == |s| ==> r == s
    decreases |s|
  {
    if |s| == 0 then []
    else if OccursAt(s, "/*", 0) && FindClose(s, 2).Some? then
      StripBlockComments(s[FindClose(s, 2).value + 2..])
    else [s[0]] + StripBlockComments(s[1..])
  }

  /** `' '.join(s.split())`: the same words, one space apart. */
  function Collapse(s: string): (r: string)
    ensures Collapsed(r)
    ensures Words(r) == Words(s)
  {
    JoinWords(Words(s));
    JoinCollapsed(Words(s));
    Join(" ", Words(s))
  }

  /** `sanitize_query`, as written: each comment pass runs once, line
      comments first. */
  function Sanitize(s: string): (r: string)
    ensures Collapsed(r)
    ensures Words(r) == Words(StripBlockComments(StripLineComments(s)))
  {
    var c := Collapse(StripBlockComments(StripLineComments(s)));
    StripCollapsed(c);
    Strip(c)
  }

  /** On a text without comment markers `sanitize_query` only collapses
      whitespace. */
  lemma {:induction false} SanitizeWithoutComments(s: string)
    requires NoPair(s, '-', '-') && NoPair(s, '/', '*')
    ensures Sanitize(s) == Collapse(s)
  {
    LineCommentsAbsent(s);
    BlockCommentsAbsent(s);
  }

  /** Sanitising twice is sanitising once when the first pass left no
      comment markers behind. */
  lemma {:induction false} SanitizeStable(s: string)
    requires NoPair(Sanitize(s), '-', '-') && NoPair(Sanitize(s), '/', '*')
    ensures Sanitize(Sanitize(s)) == Sanitize(s)
  {
    var r := Sanitize(s);
    SanitizeWithoutComments(r);
    CollapseIdentity(r);
  }

  /** Collapsing is idempotent. */
  lemma {:induction false} CollapseIdempotent(s: string)
    ensures Collapse(Collapse(s)) == Collapse(s)
  {
    CollapseIdentity(Collapse(s));
  }

  /** Text already in collapsed shape is its own collapse: `split` and
      `' '.join` are inverse on it. */
  lemma {:induction false} CollapseIdentity(r: string)
    requires Collapsed(r)
    ensures Collapse(r) == r
  {
    JoinWordsOfCollapsed(r);
  }

  lemma {:induction false} JoinWordsOfCollapsed(r: string)
    requires Collapsed(r)
    ensures Join(" ", Words(r)) == r
    decreases |r|
  {
    if |r| > 0 {
      var n := SkipNonSpace(r, 0);
      FirstWord(r, n);
      if n < |r| {
        var rest := r[n + 1..];
        CollapsedSplit(r, n);
        JoinWordsOfCollapsed(rest);
        JoinStep(r, r[..n], rest);
      } else {
        assert r[..n] == r && r[n..] == [];
      }
    }
  }

  /** The first word of a text that starts with one. */
  lemma {:induction false} FirstWord(r: string, n: nat)
    requires |r| > 0 && !IsSpace(r[0]) && n == SkipNonSpace(r, 0)
    ensures Words(r) == [r[..n]] + Words(r[n..])
  {
    WordsOfWordThen(r[..n], r[n..]);
    assert r[..n] + r[n..] == r;
  }

  /** Past its first word, collapsed text is a space and more collapsed text. */
  lemma {:induction false} CollapsedSplit(r: string, n: nat)
    requires Collapsed(r)
    requires 0 < n < |r| && IsSpace(r[n])
    ensures Collapsed(r[n + 1..]) && |r[n + 1..]| > 0
    ensures r[n..] == " " + r[n + 1..]
    ensures r == r[..n] + " " + r[n + 1..]
    ensures Words(r[n..]) == Words(r[n + 1..])
    ensures |Words(r[n + 1..])| > 0
  {
    SingleSpace(r, n);
    CollapsedSuffix(r, n + 1);
    SplitAt(r, n);
    WordsAfterSpace(r[n + 1..]);
    WordsNonEmpty(r[n + 1..]);
  }

  lemma {:induction false} SingleSpace(r: string, n: nat)
    requires Collapsed(r)
    requires n < |r| && IsSpace(r[n])
    ensures n + 1 < |r| && r[n] == ' ' && !IsSpace(r[n + 1])
  {
  }

  lemma {:induction false} SplitAt(r: string, n: nat)
    requires n < |r| && r[n] == ' '
    ensures r[n..] == " " + r[n + 1..]
    ensures r == r[..n] + " " + r[n + 1..]
  {
    assert r[n..] == [r[n]] + r[n + 1..];
    assert r == r[..n] + r[n..];
  }

  /** A suffix of collapsed text that starts with a non-whitespace character
      is collapsed. */
  lemma {:induction false} CollapsedSuffix(r: string, m: nat)
    requires Collapsed(r)
    requires m < |r| && !IsSpace(r[m])
    ensures Collapsed(r[m..])
  {
    var rest := r[m..];
    forall k | 0 <= k < |rest| - 1
      ensures IsSpace(rest[k]) ==> rest[k] == ' ' && !IsSpace(rest[k + 1])
    {
      assert rest[k] == r[m + k] && rest[k + 1] == r[m + k + 1];
    }
  }

  /** Text with a non-whitespace first character has at least one word. */
  lemma {:induction false} WordsNonEmpty(s: string)
    requires |s| > 0 && !IsSpace(s[0])
    ensures |Words(s)| > 0
  {
  }

  lemma {:induction false} JoinStep(r: string, w: string, rest: string)
    requires r == w + " " + rest
    requires Words(r) == [w] + Words(rest) && |Words(rest)| > 0
    requires Join(" ", Words(rest)) == rest
    ensures Join(" ", Words(r)) == r
  {
    JoinCons(w, Words(rest));
  }

  lemma {:induction false} JoinCons(w: string, ws: seq<string>)
    requires |ws| > 0
    ensures Join(" ", [w] + ws) == w + " " + Join(" ", ws)
  {
    assert ([w] + ws)[1..] == ws;
  }

  /** `' '.join` of words puts exactly one space between neighbours. */
  lemma {:induction false} JoinCollapsed(ws: seq<string>)
    requires forall w | w in ws :: Token(w)
    ensures Collapsed(Join(" ", ws))
    ensures |ws| > 0 ==> |Join(" ", ws)| > 0 && Join(" ", ws)[0] == ws[0][0]
    decreases |ws|
  {
    if |ws| == 1 {
      assert ws[0] in ws;
    } else if |ws| > 1 {
      assert ws[0] in ws;
      var w := ws[0];
      var rest := Join(" ", ws[1..]);
      JoinCollapsed(ws[1..]);
      assert ws[1] in ws;
      var r := w + " " + rest;
      forall k | 0 <= k < |r| - 1
        ensures IsSpace(r[k]) ==> r[k] == ' ' && !IsSpace(r[k + 1])
      {
        if k < |w| - 1 {
          assert r[k] == w[k];
        } else if k == |w| - 1 {
          assert r[k] == w[k] && r[k + 1] == ' ';
        } else if k == |w| {
          assert r[k + 1] == rest[0];
        } else {
          assert r[k] == rest[k - |w| - 1] && r[k + 1] == rest[k - |w|];
        }
      }
    }
  }

  /** `strip` leaves collapsed text alone. */
  lemma {:induction false} StripCollapsed(r: string)
    requires Collapsed(r)
    ensures Strip(r) == r
  {
    if |r| > 0 {
      SkipSpacesTo(r, 0, 0);
    }
    assert LStrip(r) == r;
  }

  /** Without a `--` the line-comment pass changes nothing. */
  lemma {:induction false} LineCommentsAbsent(s: string)
    requires NoPair(s, '-', '-')
    ensures StripLineComments(s) == s
    decreases |s|
  {
    if |s| > 0 {
      assert |s| >= 2 ==> s[..2] == [s[0], s[1]];
      assert NoPair(s[1..], '-', '-') by {
        assert forall k | 0 <= k < |s| - 1 :: s[1..][k] == s[k + 1];
      }
      LineCommentsAbsent(s[1..]);
      assert [s[0]] + s[1..] == s;
    }
  }

  // Without a `/*` the block-comment pass changes nothing.
  lemma {:induction false} BlockCommentsAbsent(s: string)
    requires NoPair(s, '/', '*')
    ensures StripBlockComments(s) == s
    decreases |s|
  {
    if |s| > 0 {
      assert |s| >= 2 ==> s[..2] == [s[0], s[1]];
      assert NoPair(s[1..], '/', '*') by {
        assert forall k | 0 <= k < |s| - 1 :: s[1..][k] == s[k + 1];
      }
      BlockCommentsAbsent(s[1..]);
      assert [s[0]] + s[1..] == s;
    }
  }

  // A `/*` that a later `*/` closes is always removed, so the block pass
  // shortens any text holding such a comment.
  lemma {:induction false} BlockCommentShrinks(s: string)
    ensures HasBlockComment(s) ==> |StripBlockComments(s)| < |s|
    decreases |s|
  {
    if HasBlockComment(s) && !(OccursAt(s, "/*", 0) && FindClose(s, 2).Some?) {
      var i: nat, j: nat :| i + 2 <= j <= |s| && OccursAt(s, "/*", i) && OccursAt(s, "*/", j);
      assert FindClose(s, 2).None? ==> !OccursAt(s, "*/", j);
      assert 0 < i;
      var i', j' := i - 1, j - 1;
      assert OccursAt(s[1..], "/*", i') && OccursAt(s[1..], "*/", j') by {
        assert s[1..][i - 1..i + 1] == s[i..i + 2];
        assert s[1..][j - 1..j + 1] == s[j..j + 2];
      }
      BlockCommentShrinks(s[1..]);
    }
  }

  // Without a closed `/*` comment the block pass keeps every character.
  lemma {:induction false} BlockCommentsKept(s: string)
    requires !HasBlockComment(s)
    ensures StripBlockComments(s) == s
    decreases |s|
  {
    if |s| > 0 {
      assert !(OccursAt(s, "/*", 0) && FindClose(s, 2).Some?);
      assert !HasBlockComment(s[1..]) by {
        forall i, j | 0 <= i && i + 2 <= j <= |s| - 1
          ensures !(OccursAt(s[1..], "/*", i) && OccursAt(s[1..], "*/", j))
        {
          OccursShift(s, "/*", i);
          OccursShift(s, "*/", j);
        }
      }
      BlockCommentsKept(s[1..]);
      assert [s[0]] + s[1..] == s;
    }
  }

  lemma {:induction false} OccursShift(s: string, p: string, i: nat)
    requires |s| > 0
    ensures OccursAt(s[1..], p, i) ==> OccursAt(s, p, i + 1)
  {
    if OccursAt(s[1..], p, i) {
      assert s[1..][i..i + |p|] == s[i + 1..i + 1 + |p|];
    }
  }

  // One round of both passes keeps every character exactly when the text
  // holds neither a `--` nor a closed `/*` comment.
  lemma {:induction false} CommentPassesFixed(s: string)
    ensures |StripBlockComments(StripLineComments(s))| == |s| <==>
      NoPair(s, '-', '-') && !HasBlockComment(s)
  {
    BlockCommentShrinks(s);
    if NoPair(s, '-', '-') && !HasBlockComment(s) {
      LineCommentsAbsent(s);
      BlockCommentsKept(s);
    }
  }

  /** Both comment passes, repeated until neither changes anything: the
      comment removal `sanitize_query` evidently means, since one round in
      a fixed order can itself assemble a new comment. */
  function StripCommentsFully(s: string): (r: string)
    ensures NoPair(r, '-', '-') && !HasBlockComment(r)
    ensures |r| <= |s|
    ensures NoPair(s, '-', '-') && !HasBlockComment(s) ==> r == s
    decreases |s|
  {
    var t := StripBlockComments(StripLineComments(s));
    CommentPassesFixed(s);
    if |t| == |s| then s else StripCommentsFully(t)
  }

  /** `sanitize_query` with comments removed until none is left. */
  function SanitizeFixed(s: string): (r: string)
    ensures Collapsed(r)
    ensures NoPair(r, '-', '-')
    ensures !HasBlockComment(r)
    ensures Words(r) == Words(StripCommentsFully(s))
  {
    var t := StripCommentsFully(s);
    var c := Collapse(t);
    StripCollapsed(c);
    CollapseKeepsNoPair(t, '-', '-');
    CollapseKeepsNoBlockComment(t);
    c
  }

  // ---------------------------------------------------------------------
  // Block comments under collapsing, stated on character pairs

  predicate OpenAt(s: string, i: nat) {
    i + 1 < |s| && s[i] == '/' && s[i + 1] == '*'
  }

  predicate CloseAt(s: string, j: nat) {
    j + 1 < |s| && s[j] == '*' && s[j + 1] == '/'
  }

  predicate Opens(s: string) {
    exists i: nat | i < |s| :: OpenAt(s, i)
  }

  predicate Closes(s: string) {
    exists j: nat | j < |s| :: CloseAt(s, j)
  }

  /** `HasBlockComment` on character pairs. */
  predicate PairComment(s: string) {
    exists i: nat, j: nat | i + 2 <= j < |s| :: OpenAt(s, i) && CloseAt(s, j)
  }

  lemma {:induction false} PairCommentIff(s: string)
    ensures HasBlockComment(s) <==> PairComment(s)
  {
    if HasBlockComment(s) {
      var i, j :| 0 <= i && i + 2 <= j <= |s| && OccursAt(s, "/*", i) && OccursAt(s, "*/", j);
      OpenOccurs(s, i);
      CloseOccurs(s, j);
    }
    if PairComment(s) {
      var i: nat, j: nat :| i + 2 <= j < |s| && OpenAt(s, i) && CloseAt(s, j);
      OpenOccurs(s, i);
      CloseOccurs(s, j);
    }
  }

  lemma {:induction false} OpenOccurs(s: string, i: nat)
    ensures OccursAt(s, "/*", i) <==> OpenAt(s, i)
  {
    if i + 2 <= |s| {
      assert s[i..i + 2] == [s[i], s[i + 1]];
    }
  }

  lemma {:induction false} CloseOccurs(s: string, j: nat)
    ensures OccursAt(s, "*/", j) <==> CloseAt(s, j)
  {
    if j + 2 <= |s| {
      assert s[j..j + 2] == [s[j], s[j + 1]];
    }
  }

  /** A pair of either part is a pair of the whole, at the shifted index. */
  lemma {:induction false} PairShift(x: string, y: string, k: nat)
    ensures OpenAt(x, k) ==> OpenAt(x + y, k)
    ensures CloseAt(x, k) ==> CloseAt(x + y, k)
    ensures OpenAt(y, k) ==> OpenAt(x + y, |x| + k)
    ensures CloseAt(y, k) ==> CloseAt(x + y, |x| + k)
  {
  }

  /** A comment of either part, or an opener before a closer, is a comment
      of the whole. */
  lemma {:induction false} CommentsGrow(x: string, y: string)
    ensures Opens(x) || Opens(y) ==> Opens(x + y)
    ensures Closes(x) || Closes(y) ==> Closes(x + y)
    ensures PairComment(x) || PairComment(y) || (Opens(x) && Closes(y)) ==> PairComment(x + y)
  {
    if Opens(x) {
      var i: nat :| i < |x| && OpenAt(x, i);
      PairShift(x, y, i);
    }
    if Opens(y) {
      var i: nat :| i < |y| && OpenAt(y, i);
      PairShift(x, y, i);
    }
    if Closes(x) {
      var j: nat :| j < |x| && CloseAt(x, j);
      PairShift(x, y, j);
    }
    if Closes(y) {
      var j: nat :| j < |y| && CloseAt(y, j);
      PairShift(x, y, j);
    }
    if PairComment(x) {
      var i: nat, j: nat :| i + 2 <= j < |x| && OpenAt(x, i) && CloseAt(x, j);
      PairShift(x, y, i);
      PairShift(x, y, j);
    }
    if PairComment(y) {
      var i: nat, j: nat :| i + 2 <= j < |y| && OpenAt(y, i) && CloseAt(y, j);
      PairShift(x, y, i);
      PairShift(x, y, j);
    }
    if Opens(x) && Closes(y) {
      var i: nat :| i < |x| && OpenAt(x, i);
      var j: nat :| j < |y| && CloseAt(y, j);
      PairShift(x, y, i);
      PairShift(x, y, j);
    }
  }

  /** Across a whitespace boundary no pair straddles the seam, so every
      comment of the whole comes from the parts. */
  lemma {:induction false} CommentsSplit(x: string, y: string)
    requires |x| == 0 || |y| == 0 || IsSpace(x[|x| - 1]) || IsSpace(y[0])
    ensures Opens(x + y) ==> Opens(x) || Opens(y)
    ensures Closes(x + y) ==> Closes(x) || Closes(y)
    ensures PairComment(x + y) ==> PairComment(x) || PairComment(y) || (Opens(x) && Closes(y))
  {
    var s := x + y;
    forall i: nat | OpenAt(s, i)
      ensures (i + 1 < |x| && OpenAt(x, i)) || (|x| <= i && OpenAt(y, i - |x|))
    {
    }
    forall j: nat | CloseAt(s, j)
      ensures (j + 1 < |x| && CloseAt(x, j)) || (|x| <= j && CloseAt(y, j - |x|))
    {
    }
    if PairComment(s) {
      var i: nat, j: nat :| i + 2 <= j && OpenAt(s, i) && CloseAt(s, j);
      if j + 1 < |x| {
        assert OpenAt(x, i) && CloseAt(x, j);
      } else if |x| <= i {
        assert OpenAt(y, i - |x|) && CloseAt(y, j - |x|);
      } else {
        assert OpenAt(x, i) && CloseAt(y, j - |x|);
      }
    }
  }

  /** Every opener, closer and comment of the collapsed text is found in the
      text itself. */
  lemma {:induction false} CollapseComments(t: string)
    ensures Opens(Join(" ", Words(t))) ==> Opens(t)
    ensures Closes(Join(" ", Words(t))) ==> Closes(t)
    ensures PairComment(Join(" ", Words(t))) ==> PairComment(t)
    decreases |t|
  {
    if |t| == 0 {
      assert !Opens("") && !Closes("") && !PairComment("");
    } else if IsSpace(t[0]) {
      CollapseComments(t[1..]);
      assert t == [t[0]] + t[1..];
      CommentsGrow([t[0]], t[1..]);
    } else {
      var n := SkipNonSpace(t, 0);
      var w := t[..n];
      var rest := t[n..];
      assert t == w + rest;
      CollapseComments(rest);
      CommentsGrow(w, rest);
      var j := Join(" ", Words(rest));
      if Words(rest) == [] {
        CommentsGrow(w, []);
        assert w + [] == w;
      } else {
        assert Join(" ", Words(t)) == w + (" " + j);
        CommentsSplit(w, " " + j);
        CommentsSplit(" ", j);
        assert !Opens(" ") && !Closes(" ") && !PairComment(" ");
      }
    }
  }

  /** Collapsing whitespace never assembles a block comment. */
  lemma {:induction false} CollapseKeepsNoBlockComment(t: string)
    requires !HasBlockComment(t)
    ensures !HasBlockComment(Collapse(t))
  {
    PairCommentIff(t);
    CollapseComments(t);
    PairCommentIff(Collapse(t));
  }

  /** Collapsing whitespace never makes two non-whitespace characters
      neighbours that were not neighbours before. */
  lemma {:induction false} CollapseKeepsNoPair(t: string, a: char, b: char)
    requires NoPair(t, a, b) && !IsSpace(a) && !IsSpace(b)
    ensures NoPair(Collapse(t), a, b)
  {
    WordsNoPair(t, a, b);
    JoinNoPair(Words(t), a, b);
  }

  lemma {:induction false} WordsNoPair(t: string, a: char, b: char)
    requires NoPair(t, a, b)
    ensures forall w | w in Words(t) :: NoPair(w, a, b)
    decreases |t|
  {
    if |t| > 0 {
      if IsSpace(t[0]) {
        NoPairSlice(t, 1, |t|, a, b);
        WordsNoPair(t[1..], a, b);
      } else {
        var n := SkipNonSpace(t, 0);
        NoPairSlice(t, 0, n, a, b);
        NoPairSlice(t, n, |t|, a, b);
        WordsNoPair(t[n..], a, b);
        assert t[0..n] == t[..n] && t[n..|t|] == t[n..];
      }
    }
  }

  lemma {:induction false} NoPairSlice(t: string, i: nat, j: nat, a: char, b: char)
    requires NoPair(t, a, b) && i <= j <= |t|
    ensures NoPair(t[i..j], a, b)
  {
    forall k | 0 <= k < j - i - 1
      ensures !(t[i..j][k] == a && t[i..j][k + 1] == b)
    {
      assert t[i..j][k] == t[i + k] && t[i..j][k + 1] == t[i + k + 1];
    }
  }

  lemma {:induction false} JoinNoPair(ws: seq<string>, a: char, b: char)
    requires forall w | w in ws :: NoPair(w, a, b)
    requires a != ' ' && b != ' '
    ensures NoPair(Join(" ", ws), a, b)
    decreases |ws|
  {
    if |ws| == 1 {
      assert ws[0] in ws;
    } else if |ws| > 1 {
      assert ws[0] in ws;
      assert forall w | w in ws[1..] :: w in ws;
      JoinNoPair(ws[1..], a, b);
      NoPairAcrossSpace(ws[0], Join(" ", ws[1..]), a, b);
    }
  }

  lemma {:induction false} NoPairAcrossSpace(x: string, y: string, a: char, b: char)
    requires NoPair(x, a, b) && NoPair(y, a, b)
    requires a != ' ' && b != ' '
    ensures NoPair(x + " " + y, a, b)
  {
    var r := x + " " + y;
    forall k | 0 <= k < |r| - 1
      ensures !(r[k] == a && r[k + 1] == b)
    {
      if k < |x| - 1 {
        assert r[k] == x[k] && r[k + 1] == x[k + 1];
      } else if k == |x| - 1 {
        assert r[k + 1] == ' ';
      } else if k == |x| {
        assert r[k] == ' ';
      } else {
        assert r[k] == y[k - |x| - 1] && r[k + 1] == y[k - |x|];
      }
    }
  }

  /** A `--` comment runs to the end of its line: it goes, and the line
      break and everything after it are processed as before. */
  lemma {:induction false} LineCommentToEndOfLine(comment: string, rest: string)
    requires '\n' !in comment
    requires rest == [] || rest[0] == '\n'
    ensures StripLineComments("--" + comment + rest) == StripLineComments(rest)
  {
    var s := "--" + comment + rest;
    assert OccursAt(s, "--", 0);
    assert forall k | 2 <= k < 2 + |comment| :: s[k] == comment[k - 2];
    assert LineEnd(s, 2) == 2 + |comment| by {
      if rest != [] {
        assert s[2 + |comment|] == '\n';
      }
      LineEndAt(s, 2, 2 + |comment|);
    }
    assert s[2 + |comment|..] == rest;
  }

  // A block comment ends at the first `*/` after its `/*` (the match is
  // lazy): a body without `*/` goes together with its delimiters.
  lemma {:induction false} BlockCommentToFirstClose(body: string, rest: string)
    requires NoPair(body, '*', '/')
    ensures StripBlockComments("/*" + body + "*/" + rest) == StripBlockComments(rest)
  {
    var s := "/*" + body + "*/" + rest;
    var e := 2 + |body|;
    assert OccursAt(s, "/*", 0) by { assert s[..2] == "/*"; }
    assert OccursAt(s, "*/", e) by { assert s[e..e + 2] == "*/"; }
    forall k | 2 <= k < e
      ensures !OccursAt(s, "*/", k)
    {
      if k + 1 < e {
        assert s[k] == body[k - 2] && s[k + 1] == body[k - 1];
      } else {
        assert s[k + 1] == '*';
      }
    }
    FindCloseAt(s, 2, e);
    assert s[e + 2..] == rest;
  }

  lemma {:induction false} FindCloseAt(s: string, i: nat, j: nat)
    requires i <= j && j + 2 <= |s|
    requires forall k | i <= k < j :: !OccursAt(s, "*/", k)
    requires OccursAt(s, "*/", j)
    ensures FindClose(s, i) == Some(j)
    decreases j - i
  {
    if i < j {
      FindCloseAt(s, i + 1, j);
    }
  }

  // `sanitize_query` as written: deleting the block comment in `-/**/-`
  // joins its two dashes into a new `--`, which the already finished
  // line-comment pass never sees.
  lemma {:induction false} SanitizeLeavesLineComment(s: string)
    requires s == "-/**/-"
    ensures Sanitize(s) == "--"
    ensures !NoPair(Sanitize(s), '-', '-')
    ensures SanitizeFixed(s) == ""
  {
    assert s == ['-'] + ("/**/" + "-");
    DashPassesOnce(s);
    CollapsedFixed("--");
    DashPassesFully(s);
    assert Collapse("") == "";
  }

  lemma {:induction false} DashPassesOnce(s: string)
    requires s == ['-'] + ("/**/" + "-")
    ensures StripBlockComments(StripLineComments(s)) == "--"
  {
    assert NoPair(s, '-', '-') by {
      assert forall k | 0 <= k < |s| - 1 :: s[k] != '-' || s[k + 1] != '-';
    }
    LineCommentsAbsent(s);
    BlockKeep('-', "/**/" + "-");
    BlockDrop("-");
    BlockCommentsAbsent("-");
  }

  lemma {:induction false} DashPassesFully(s: string)
    requires s == ['-'] + ("/**/" + "-")
    ensures StripCommentsFully(s) == ""
  {
    DashPassesOnce(s);
    assert StripLineComments("--") == "";
    assert StripCommentsFully("--") == "";
  }

  /** Text without a dash has no line comment to remove. */
  lemma {:induction false} NoDashes(s: string)
    requires '-' !in s
    ensures StripLineComments(s) == s
  {
    assert forall k | 0 <= k < |s| :: s[k] in s;
    LineCommentsAbsent(s);
  }

  /** A character that does not open a block comment is kept. */
  lemma {:induction false} BlockKeep(c: char, rest: string)
    requires !OccursAt([c] + rest, "/*", 0)
    ensures StripBlockComments([c] + rest) == [c] + StripBlockComments(rest)
  {
    assert ([c] + rest)[1..] == rest;
  }

  /** An empty block comment at the front is dropped. */
  lemma {:induction false} BlockDrop(rest: string)
    ensures StripBlockComments("/**/" + rest) == StripBlockComments(rest)
  {
    var s := "/**/" + rest;
    assert OccursAt(s, "/*", 0) && OccursAt(s, "*/", 2);
    assert FindClose(s, 2) == Some(2);
    assert s[4..] == rest;
  }

  /** Sanitising collapsed text only strips it, which keeps it. */
  lemma {:induction false} CollapsedFixed(r: string)
    requires Collapsed(r)
    ensures Strip(Collapse(r)) == r
  {
    CollapseIdentity(r);
    StripCollapsed(r);
  }

  // `sanitize_query` as written: in `//**/**/` the lazy match removes
  // `/**/` from index 1, and what is left, `/**/`, is again a closed
  // block comment.
  lemma {:induction false} SanitizeLeavesBlockComment(s: string)
    requires s == "//**/**/"
    ensures Sanitize(s) == "/**/"
    ensures HasBlockComment(Sanitize(s))
  {
    assert s == ['/'] + ("/**/" + "**/");
    var c := StripBlockComments(StripLineComments(s));
    SlashPassesOnce(s);
    EmptyComment(c);
    NoSpaceCollapsed(c);
    CollapsedFixed(c);
  }

  lemma {:induction false} EmptyComment(c: string)
    requires c == "/**/"
    ensures HasBlockComment(c) && NoSpace(c)
  {
    assert OccursAt(c, "/*", 0) && OccursAt(c, "*/", 2);
  }

  /** Text without whitespace is collapsed. */
  lemma {:induction false} NoSpaceCollapsed(r: string)
    requires NoSpace(r)
    ensures Collapsed(r)
  {
  }

  lemma {:induction false} SlashPassesOnce(s: string)
    requires s == ['/'] + ("/**/" + "**/")
    ensures StripBlockComments(StripLineComments(s)) == "/**/"
  {
    var tail := "**/";
    assert NoPair(tail, '/', '*');
    SlashThenComment(s, tail);
  }

  /** A slash, an empty block comment, then text without comment openers:
      only the comment goes. */
  lemma {:induction false} SlashThenComment(s: string, tail: string)
    requires s == ['/'] + ("/**/" + tail)
    requires '-' !in tail && NoPair(tail, '/', '*')
    ensures StripBlockComments(StripLineComments(s)) == ['/'] + tail
  {
    assert forall k | 0 <= k < |s| :: s[k] == '/' || s[k] == '*' || s[k] in tail;
    NoDashes(s);
    SlashThenEmptyComment(tail);
    BlockCommentsAbsent(tail);
  }

  /** A slash right before an empty block comment is kept, and the comment dropped. */
  lemma {:induction false} SlashThenEmptyComment(rest: string)
    ensures StripBlockComments(['/'] + ("/**/" + rest)) == ['/'] + StripBlockComments(rest)
  {
    var t := "/**/" + rest;
    assert (['/'] + t)[1] == '/';
    BlockKeep('/', t);
    BlockDrop(rest);
  }
}
