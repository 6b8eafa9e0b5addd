/** The fallback renderer of `generate_simple_diagram`: a title, three
    captions, and the description cut to its first 100 words, wrapped
    greedily into lines of at most 60 characters, of which at most 10 are
    drawn, followed by an ellipsis when more were produced.  Coordinates,
    fonts and the image bytes are not modelled: the figure is the list of
    texts in drawing order. */
module Fallback {

  const Width := 60
  const MaxWords := 100
  const MaxLines := 10
  const Ellipsis := "..."
  const Title := "Azure Architecture Diagram (Fallback Mode)"
  const Captions := [
    "This is a fallback diagram.",
    "The full diagram generation requires Graphviz to be installed.",
    "Description:"]

  function Min(a: int, b: int): int {
    if a <= b then a else b
  }

  // ---------------------------------------------------------------------
  // Words: Python's `str.split()` with no separator

  /** Python's `str.isspace` for one character. */
  predicate IsSpace(c: char) {
    var n := c as int;
    n == 0x20 || 0x09 <= n <= 0x0D || 0x1C <= n <= 0x1F || n == 0x85 || n == 0xA0 ||
    n == 0x1680 || 0x2000 <= n <= 0x200A || n == 0x2028 || n == 0x2029 ||
    n == 0x202F || n == 0x205F || n == 0x3000
  }

  /** The space, tab and line breaks separate words, no visible ASCII
      character does, and every separator lies at or below U+3000, the
      ideographic space. */
  lemma SpaceChars(c: char)
    ensures c == ' ' || c == '\t' || c == '\n' || c == '\r' ==> IsSpace(c)
    ensures '!' <= c <= '~' ==> !IsSpace(c)
    ensures IsSpace(c) ==> c as int <= 0x3000
  {
  }

  /** A word: not empty, no whitespace. */
  predicate IsWord(w: string) {
    w != [] && forall k :: 0 <= k < |w| ==> !IsSpace(w[k])
  }

  predicate AllWords(ws: seq<string>) {
    forall i :: 0 <= i < |ws| ==> IsWord(ws[i])
  }

  predicate Blank(s: string) {
    forall k :: 0 <= k < |s| ==> IsSpace(s[k])
  }

  /** The length of the run of non-whitespace characters that starts `s`. */
  function WordEnd(s: string): (n: nat)
    ensures n <= |s|
    ensures forall k :: 0 <= k < n ==> !IsSpace(s[k])
    ensures n < |s| ==> IsSpace(s[n])
  {
    if s == [] || IsSpace(s[0]) then 0
    else
      var n := WordEnd(s[1..]);
      assert forall k :: 1 <= k < n + 1 ==> s[k] == s[1..][k - 1];
      n + 1
  }

  /** `s.split()`: the maximal runs of non-whitespace characters. */
  function Words(s: string): (ws: seq<string>)
    ensures AllWords(ws)
    ensures ws == [] <==> Blank(s)
    decreases |s|
  {
    if s == [] then []
    else if IsSpace(s[0]) then
      var rest := Words(s[1..]);
      assert Blank(s) <==> Blank(s[1..]) by {
        assert forall k :: 1 <= k < |s| ==> s[k] == s[1..][k - 1];
      }
      rest
    else
      var n := WordEnd(s);
      [s[..n]] + Words(s[n..])
  }

  /** `" ".join(ws)`. */
  function JoinWords(ws: seq<string>): string {
    if ws == [] then ""
    else if |ws| == 1 then ws[0]
    else JoinWords(ws[..|ws| - 1]) + " " + ws[|ws| - 1]
  }

  /** The words of the lines, in order, as one list. */
  function Flatten(gs: seq<seq<string>>): seq<string> {
    if gs == [] then [] else Flatten(gs[..|gs| - 1]) + gs[|gs| - 1]
  }

  /** `WordEnd` stops at the first whitespace, wherever it comes from. */
  lemma WordEndAppend(s: string, t: string)
    requires t != [] && IsSpace(t[0])
    ensures WordEnd(s + t) == WordEnd(s)
  {
    var m := WordEnd(s);
    var n := WordEnd(s + t);
    assert IsSpace((s + t)[m]);
  }

  lemma WordsOfWord(w: string)
    requires IsWord(w)
    ensures Words(w) == [w]
  {
    assert WordEnd(w) == |w|;
    assert w[|w|..] == [];
    assert w[..|w|] == w;
  }

  /** Any whitespace character separates: splitting `s`, one whitespace
      character and `t` yields the words of `s`, then those of `t`.  With
      `Words("") == []` and `WordsOfWord` this fixes `Words` on every
      string. */
  lemma {:induction false} WordsSplitAt(s: string, c: char, t: string)
    requires IsSpace(c)
    ensures Words(s + [c] + t) == Words(s) + Words(t)
    decreases |s|, 1
  {
    if s == [] {
      var u := s + [c] + t;
      assert u[0] == c && u[1..] == t;
      WordsSpaceHead(u);
    } else if IsSpace(s[0]) {
      WordsSplitAtSpace(s, c, t);
    } else {
      WordsSplitAtWord(s, c, t);
    }
  }

  lemma {:induction false} WordsSplitAtSpace(s: string, c: char, t: string)
    requires IsSpace(c) && s != [] && IsSpace(s[0])
    ensures Words(s + [c] + t) == Words(s) + Words(t)
    decreases |s|, 0
  {
    var u := s + [c] + t;
    assert u[0] == s[0];
    assert u[1..] == s[1..] + [c] + t;
    WordsSpaceHead(u);
    WordsSpaceHead(s);
    WordsSplitAt(s[1..], c, t);
  }

  lemma {:induction false} WordsSplitAtWord(s: string, c: char, t: string)
    requires IsSpace(c) && s != [] && !IsSpace(s[0])
    ensures Words(s + [c] + t) == Words(s) + Words(t)
    decreases |s|, 0
  {
    var u := s + [c] + t;
    var n := WordEnd(s);
    var rest := s[n..];
    assert WordEnd(u) == n by {
      assert u == s + ([c] + t);
      WordEndAppend(s, [c] + t);
    }
    assert u[..n] == s[..n] && u[n..] == rest + [c] + t;
    assert Words(u) == [s[..n]] + Words(rest + [c] + t) by {
      assert u[0] == s[0];
      WordsWordHead(u);
    }
    assert Words(s) == [s[..n]] + Words(rest) by {
      WordsWordHead(s);
    }
    assert Words(rest + [c] + t) == Words(rest) + Words(t) by {
      WordsSplitAt(rest, c, t);
    }
    ConcatAssoc([s[..n]], Words(rest), Words(t));
  }

  lemma ConcatAssoc<T>(a: seq<T>, b: seq<T>, c: seq<T>)
    ensures a + (b + c) == (a + b) + c
  {
  }

  lemma WordsSpaceHead(u: string)
    requires u != [] && IsSpace(u[0])
    ensures Words(u) == Words(u[1..])
  {
  }

  lemma WordsWordHead(u: string)
    requires u != [] && !IsSpace(u[0])
    ensures Words(u) == [u[..WordEnd(u)]] + Words(u[WordEnd(u)..])
  {
  }

  /** Splitting `s + " " + w` yields the words of `s`, then `w`. */
  lemma WordsAppend(s: string, w: string)
    requires IsWord(w)
    ensures Words(s + " " + w) == Words(s) + [w]
  {
    assert s + " " + w == s + [' '] + w;
    WordsSplitAt(s, ' ', w);
    WordsOfWord(w);
  }

  /** Splitting undoes joining: `" ".join(ws).split() == ws` for words. */
  lemma {:induction false} SplitJoin(ws: seq<string>)
    requires AllWords(ws)
    ensures Words(JoinWords(ws)) == ws
  {
    if ws == [] {
    } else if |ws| == 1 {
      WordsOfWord(ws[0]);
    } else {
      var init := ws[..|ws| - 1];
      SplitJoin(init);
      WordsAppend(JoinWords(init), ws[|ws| - 1]);
    }
  }

  /** Joining two non-empty lists puts one space between their joins. */
  lemma {:induction false} JoinConcat(a: seq<string>, b: seq<string>)
    requires a != [] && b != []
    ensures JoinWords(a + b) == JoinWords(a) + " " + JoinWords(b)
  {
    var n := |b| - 1;
    assert (a + b)[..|a + b| - 1] == a + b[..n];
    if n > 0 {
      JoinConcat(a, b[..n]);
    }
  }

  lemma {:induction false} FlattenConcat(a: seq<seq<string>>, b: seq<seq<string>>)
    ensures Flatten(a + b) == Flatten(a) + Flatten(b)
  {
    if b == [] {
      assert a + b == a;
    } else {
      var n := |b| - 1;
      assert (a + b)[..|a + b| - 1] == a + b[..n];
      FlattenConcat(a, b[..n]);
    }
  }

  lemma {:induction false} FlattenMember(gs: seq<seq<string>>, i: nat, k: nat)
    requires i < |gs| && k < |gs[i]|
    ensures gs[i][k] in Flatten(gs)
  {
    var n := |gs| - 1;
    if i < n {
      FlattenMember(gs[..n], i, k);
    }
  }

  // ---------------------------------------------------------------------
  // Greedy wrapping, stated on groups of words

  /** The loop's state in words: the finished lines and the current one. */
  datatype Wrapping = Wrapping(done: seq<seq<string>>, open: seq<string>)

  /** The state after feeding `ws`, one word at a time: a word that would
      make the current line longer than `Width` starts a new line. */
  function Fill(ws: seq<string>): Wrapping {
    if ws == [] then Wrapping([], [])
    else
      var st := Fill(ws[..|ws| - 1]);
      var w := ws[|ws| - 1];
      if |JoinWords(st.open)| + 1 + |w| > Width then Wrapping(st.done + [st.open], [w])
      else Wrapping(st.done, st.open + [w])
  }

  /** The lines as word groups; the current line is kept if it is not empty. */
  function Groups(ws: seq<string>): seq<seq<string>> {
    var st := Fill(ws);
    if st.open == [] then st.done else st.done + [st.open]
  }

  function Render(gs: seq<seq<string>>): (ls: seq<string>)
    ensures |ls| == |gs|
    ensures forall i :: 0 <= i < |gs| ==> ls[i] == JoinWords(gs[i])
  {
    if gs == [] then [] else Render(gs[..|gs| - 1]) + [JoinWords(gs[|gs| - 1])]
  }

  /** The wrapped lines of a list of words. */
  function Lines(ws: seq<string>): seq<string> {
    Render(Groups(ws))
  }

  lemma JoinAppend(a: seq<string>, w: string)
    requires a != []
    ensures JoinWords(a + [w]) == JoinWords(a) + " " + w
  {
    assert (a + [w])[..|a|] == a;
  }

  lemma FlattenAppend(gs: seq<seq<string>>, g: seq<string>)
    ensures Flatten(gs + [g]) == Flatten(gs) + g
  {
    assert (gs + [g])[..|gs|] == gs;
  }

  /** Feeding one more word: the step of the loop. */
  lemma FillNext(ws: seq<string>, i: nat)
    requires i < |ws|
    ensures Fill(ws[..i + 1]) ==
      var st := Fill(ws[..i]);
      if |JoinWords(st.open)| + 1 + |ws[i]| > Width then Wrapping(st.done + [st.open], [ws[i]])
      else Wrapping(st.done, st.open + [ws[i]])
  {
    assert ws[..i + 1][..i] == ws[..i];
  }

  lemma RenderAppend(gs: seq<seq<string>>, g: seq<string>)
    ensures Render(gs + [g]) == Render(gs) + [JoinWords(g)]
  {
    assert (gs + [g])[..|gs|] == gs;
  }

  /** The loop's state: the groups hold the words fed so far, in order. */
  lemma {:induction false} FillFlatten(ws: seq<string>)
    ensures Flatten(Fill(ws).done) + Fill(ws).open == ws
  {
    if ws != [] {
      var n := |ws| - 1;
      FillFlatten(ws[..n]);
      SplitLast(ws);
      var st := Fill(ws[..n]);
      if |JoinWords(st.open)| + 1 + |ws[n]| > Width {
        FlattenAppend(st.done, st.open);
      }
    }
  }

  lemma SplitLast<T>(ws: seq<T>)
    requires ws != []
    ensures ws == ws[..|ws| - 1] + [ws[|ws| - 1]]
  {
  }

  /** The current line is empty only before the first word; only the first
      finished line can be empty, and only when the first word has `Width`
      characters or more. */
  lemma {:induction false} FillShape(ws: seq<string>)
    ensures ws == [] <==> Fill(ws).open == []
    ensures ws == [] ==> Fill(ws).done == []
    ensures forall i :: 0 < i < |Fill(ws).done| ==> Fill(ws).done[i] != []
    ensures |Fill(ws).done| > 0 && Fill(ws).done[0] == [] <==> ws != [] && |ws[0]| >= Width
  {
    if ws != [] {
      var n := |ws| - 1;
      var init := ws[..n];
      FillShape(init);
      if n > 0 {
        assert init[0] == ws[0];
      }
    }
  }

  /** Every line of two or more words fits in `Width` characters. */
  lemma {:induction false} FillWidth(ws: seq<string>)
    ensures forall i :: 0 <= i < |Fill(ws).done| && |Fill(ws).done[i]| >= 2 ==>
      |JoinWords(Fill(ws).done[i])| <= Width
    ensures |Fill(ws).open| >= 2 ==> |JoinWords(Fill(ws).open)| <= Width
  {
    if ws != [] {
      var n := |ws| - 1;
      var init := ws[..n];
      var w := ws[n];
      FillWidth(init);
      var st := Fill(init);
      if |JoinWords(st.open)| + 1 + |w| <= Width && st.open != [] {
        JoinAppend(st.open, w);
      }
    }
  }

  /** Every finished line is full: it, a space and the first word of the
      line after it would not fit in `Width` characters. */
  ghost predicate DoneFull(done: seq<seq<string>>) {
    forall j :: 0 < j < |done| ==>
      done[j] != [] && |JoinWords(done[j - 1])| + 1 + |done[j][0]| > Width
  }

  /** The last finished line is full too, given the current line's first word. */
  ghost predicate OpenFull(st: Wrapping) {
    |st.done| > 0 ==>
      (st.open != [] && |JoinWords(st.done[|st.done| - 1])| + 1 + |st.open[0]| > Width)
  }

  lemma {:induction false} FillGreedy(ws: seq<string>)
    ensures DoneFull(Fill(ws).done) && OpenFull(Fill(ws))
  {
    if ws != [] {
      var n := |ws| - 1;
      FillGreedy(ws[..n]);
      var st := Fill(ws[..n]);
      if |JoinWords(st.open)| + 1 + |ws[n]| > Width {
        FillGreedyPush(st);
      } else {
        FillGreedyExtend(st, ws[n]);
      }
    }
  }

  /** Finishing the current line keeps every finished line full. */
  lemma FillGreedyPush(st: Wrapping)
    requires DoneFull(st.done) && OpenFull(st)
    ensures DoneFull(st.done + [st.open])
  {
    var done := st.done + [st.open];
    forall j | 0 < j < |done|
      ensures done[j] != [] && |JoinWords(done[j - 1])| + 1 + |done[j][0]| > Width
    {
      assert done[j - 1] == st.done[j - 1];
      if j < |st.done| {
        assert done[j] == st.done[j];
      }
    }
  }

  /** Extending the current line keeps its first word. */
  lemma FillGreedyExtend(st: Wrapping, w: string)
    requires OpenFull(st)
    ensures OpenFull(Wrapping(st.done, st.open + [w]))
  {
    if |st.done| > 0 {
      assert (st.open + [w])[0] == st.open[0];
    }
  }

  /** The word groups of the wrapped lines hold the words, in order. */
  lemma GroupsFlatten(ws: seq<string>)
    ensures Flatten(Groups(ws)) == ws
    ensures Groups(ws) == [] <==> ws == []
  {
    var st := Fill(ws);
    FillFlatten(ws);
    FillShape(ws);
    if st.open != [] {
      FlattenAppend(st.done, st.open);
    }
  }

  /** Only the first group can be empty, and only when the first word has
      `Width` characters or more. */
  lemma GroupsShape(ws: seq<string>)
    ensures forall i :: 0 < i < |Groups(ws)| ==> Groups(ws)[i] != []
    ensures |Groups(ws)| > 0 && Groups(ws)[0] == [] <==> ws != [] && |ws[0]| >= Width
  {
    var st := Fill(ws);
    FillShape(ws);
    if st.open != [] {
      var gs := st.done + [st.open];
      assert forall i :: 0 <= i < |st.done| ==> gs[i] == st.done[i];
    }
  }

  /** A group of two or more words fits the width, and each line is full:
      the next line's first word would not have fitted on it. */
  lemma GroupsLayout(ws: seq<string>)
    ensures forall i :: 0 <= i < |Groups(ws)| && |Groups(ws)[i]| >= 2 ==> |JoinWords(Groups(ws)[i])| <= Width
    ensures forall j :: 0 < j < |Groups(ws)| ==>
      Groups(ws)[j] != [] && |JoinWords(Groups(ws)[j - 1])| + 1 + |Groups(ws)[j][0]| > Width
  {
    var st := Fill(ws);
    FillShape(ws);
    FillWidth(ws);
    FillGreedy(ws);
    if st.open != [] {
      var gs := st.done + [st.open];
      assert Groups(ws) == gs;
      assert forall i :: 0 <= i < |st.done| ==> gs[i] == st.done[i];
      FillGreedyPush(st);
    } else {
      assert Groups(ws) == st.done;
    }
  }

  lemma GroupsAreWords(ws: seq<string>, i: nat)
    requires AllWords(ws) && i < |Groups(ws)|
    ensures AllWords(Groups(ws)[i])
  {
    GroupsFlatten(ws);
    GroupsShape(ws);
    forall k | 0 <= k < |Groups(ws)[i]|
      ensures IsWord(Groups(ws)[i][k])
    {
      FlattenMember(Groups(ws), i, k);
    }
  }

  /** Each wrapped line splits back into its group of words. */
  lemma LineWords(ws: seq<string>, i: nat)
    requires AllWords(ws) && i < |Lines(ws)|
    ensures Words(Lines(ws)[i]) == Groups(ws)[i]
  {
    GroupsAreWords(ws, i);
    SplitJoin(Groups(ws)[i]);
  }

  lemma JoinNotEmpty(g: seq<string>)
    requires AllWords(g) && g != []
    ensures JoinWords(g) != ""
  {
  }

  /** Joining the lines of groups that are all non-empty gives the join of
      all their words. */
  lemma {:induction false} JoinRender(gs: seq<seq<string>>)
    requires forall i :: 0 <= i < |gs| ==> gs[i] != []
    ensures JoinWords(Render(gs)) == JoinWords(Flatten(gs))
  {
    if gs != [] {
      var n := |gs| - 1;
      var init := gs[..n];
      SplitLast(gs);
      RenderAppend(init, gs[n]);
      FlattenAppend(init, gs[n]);
      if n == 0 {
        assert init == [];
        assert Render(gs) == [JoinWords(gs[0])];
        assert JoinWords(Render(gs)) == JoinWords(gs[0]);
        assert Flatten(gs) == gs[0];
      } else {
        JoinRender(init);
        FlattenNotEmpty(init);
        JoinConcat(Flatten(init), gs[n]);
        JoinAppend(Render(init), JoinWords(gs[n]));
      }
    }
  }

  lemma FlattenNotEmpty(gs: seq<seq<string>>)
    requires gs != [] && gs[|gs| - 1] != []
    ensures Flatten(gs) != []
  {
  }

  /** The lines that are not empty. */
  function NonBlank(ls: seq<string>): seq<string> {
    if ls == [] then []
    else NonBlank(ls[..|ls| - 1]) + (if ls[|ls| - 1] != "" then [ls[|ls| - 1]] else [])
  }

  lemma {:induction false} NonBlankAll(ls: seq<string>)
    requires forall i :: 0 <= i < |ls| ==> ls[i] != ""
    ensures NonBlank(ls) == ls
  {
    if ls != [] {
      NonBlankAll(ls[..|ls| - 1]);
    }
  }

  lemma {:induction false} NonBlankDropFirst(ls: seq<string>)
    requires ls != [] && ls[0] == ""
    requires forall i :: 0 < i < |ls| ==> ls[i] != ""
    ensures NonBlank(ls) == ls[1..]
  {
    var n := |ls| - 1;
    if n == 0 {
      assert ls[..0] == [];
    } else {
      NonBlankDropFirst(ls[..n]);
      assert ls[1..] == ls[..n][1..] + [ls[n]];
    }
  }

  // ---------------------------------------------------------------------
  // What the wrapped lines promise

  /** No word is lost, reordered or split: the lines split back into
      groups of words that together are the words, in order. */
  lemma WrapKeepsWords(ws: seq<string>)
    requires AllWords(ws)
    ensures forall i :: 0 <= i < |Lines(ws)| ==> Words(Lines(ws)[i]) == Groups(ws)[i]
    ensures Flatten(Groups(ws)) == ws
  {
    GroupsFlatten(ws);
    GroupsShape(ws);
    forall i | 0 <= i < |Lines(ws)|
      ensures Words(Lines(ws)[i]) == Groups(ws)[i]
    {
      LineWords(ws, i);
    }
  }

  /** Only the first line can be empty. */
  lemma LaterLinesNotBlank(ws: seq<string>)
    requires AllWords(ws)
    ensures forall i :: 0 < i < |Lines(ws)| ==> Lines(ws)[i] != ""
  {
    forall i | 0 < i < |Lines(ws)|
      ensures Lines(ws)[i] != ""
    {
      GroupsFlatten(ws);
      GroupsShape(ws);
      GroupsAreWords(ws, i);
      JoinNotEmpty(Groups(ws)[i]);
    }
  }

  /** Dropping an empty first group drops the empty first line. */
  lemma JoinRenderDropFirst(gs: seq<seq<string>>)
    requires gs != [] && gs[0] == []
    requires forall i :: 0 < i < |gs| ==> gs[i] != []
    ensures JoinWords(Render(gs)[1..]) == JoinWords(Flatten(gs))
  {
    var rest := gs[1..];
    FlattenDropEmpty(gs);
    RenderTail(gs);
    JoinRender(rest);
  }

  lemma FlattenDropEmpty(gs: seq<seq<string>>)
    requires gs != [] && gs[0] == []
    ensures Flatten(gs) == Flatten(gs[1..])
  {
    var first: seq<seq<string>> := [gs[0]];
    assert gs == first + gs[1..];
    FlattenConcat(first, gs[1..]);
    assert first[..0] == [];
    assert Flatten(first) == Flatten(first[..0]) + first[0];
  }

  lemma RenderTail(gs: seq<seq<string>>)
    requires gs != []
    ensures Render(gs)[1..] == Render(gs[1..])
  {
    var a := Render(gs)[1..];
    var b := Render(gs[1..]);
    assert |a| == |b|;
    forall i | 0 <= i < |a|
      ensures a[i] == b[i]
    {
      assert a[i] == Render(gs)[i + 1] == JoinWords(gs[i + 1]);
    }
  }

  /** For groups whose lines are empty exactly when they are, and of which
      only the first can be empty, the non-empty lines joined are the
      words joined. */
  lemma JoinNonBlank(gs: seq<seq<string>>)
    requires forall i :: 0 < i < |gs| ==> gs[i] != []
    requires forall i :: 0 <= i < |gs| ==> (JoinWords(gs[i]) == "" <==> gs[i] == [])
    ensures JoinWords(NonBlank(Render(gs))) == JoinWords(Flatten(gs))
  {
    if gs != [] && gs[0] == [] {
      JoinNonBlankDrop(gs);
    } else {
      JoinNonBlankKeep(gs);
    }
  }

  lemma JoinNonBlankDrop(gs: seq<seq<string>>)
    requires gs != [] && gs[0] == []
    requires forall i :: 0 < i < |gs| ==> gs[i] != []
    requires forall i :: 0 < i < |gs| ==> JoinWords(gs[i]) != ""
    ensures JoinWords(NonBlank(Render(gs))) == JoinWords(Flatten(gs))
  {
    var ls := Render(gs);
    forall i | 0 < i < |ls|
      ensures ls[i] != ""
    {
      assert ls[i] == JoinWords(gs[i]);
    }
    NonBlankDropFirst(ls);
    JoinRenderDropFirst(gs);
  }

  lemma JoinNonBlankKeep(gs: seq<seq<string>>)
    requires gs == [] || gs[0] != []
    requires forall i :: 0 < i < |gs| ==> gs[i] != []
    requires forall i :: 0 <= i < |gs| ==> JoinWords(gs[i]) != ""
    ensures JoinWords(NonBlank(Render(gs))) == JoinWords(Flatten(gs))
  {
    var ls := Render(gs);
    forall i | 0 <= i < |ls|
      ensures ls[i] != ""
    {
      assert ls[i] == JoinWords(gs[i]);
    }
    NonBlankAll(ls);
    JoinRender(gs);
  }

  /** The non-empty lines joined by spaces are the words joined by spaces. */
  lemma WrapJoin(ws: seq<string>)
    requires AllWords(ws)
    ensures JoinWords(NonBlank(Lines(ws))) == JoinWords(ws)
  {
    GroupsFlatten(ws);
    GroupsShape(ws);
    var gs := Groups(ws);
    forall i | 0 <= i < |gs|
      ensures JoinWords(gs[i]) == "" <==> gs[i] == []
    {
      GroupsAreWords(ws, i);
      if gs[i] != [] {
        JoinNotEmpty(gs[i]);
      }
    }
    JoinNonBlank(gs);
  }

  /** A line of two or more words fits in `Width` characters; a longer
      line is one word. */
  lemma WrapWidth(ws: seq<string>, i: nat)
    requires AllWords(ws) && i < |Lines(ws)|
    ensures |Words(Lines(ws)[i])| >= 2 ==> |Lines(ws)[i]| <= Width
    ensures |Lines(ws)[i]| > Width ==> |Words(Lines(ws)[i])| == 1
  {
    GroupsFlatten(ws);
    GroupsShape(ws);
    GroupsLayout(ws);
    LineWords(ws, i);
  }

  /** Each line but the last is full: it, a space and the first word of
      the next line would be longer than `Width`. */
  lemma WrapGreedy(ws: seq<string>, i: nat)
    requires AllWords(ws) && i + 1 < |Lines(ws)|
    ensures Words(Lines(ws)[i + 1]) != []
    ensures |Lines(ws)[i]| + 1 + |Words(Lines(ws)[i + 1])[0]| > Width
  {
    GroupsLayout(ws);
    LineWords(ws, i + 1);
    assert Groups(ws)[i + 1] != [];
  }

  /** An empty line is only ever the first, and only when the first word
      has `Width` characters or more. */
  lemma WrapBlankLine(ws: seq<string>, i: nat)
    requires AllWords(ws) && i < |Lines(ws)|
    ensures Lines(ws)[i] == "" <==> i == 0 && |ws[0]| >= Width
  {
    GroupsFlatten(ws);
    GroupsShape(ws);
    GroupsAreWords(ws, i);
    if Groups(ws)[i] != [] {
      JoinNotEmpty(Groups(ws)[i]);
    }
  }

  /** No words, no lines. */
  lemma WrapEmpty(ws: seq<string>)
    ensures Lines(ws) == [] <==> ws == []
  {
    GroupsFlatten(ws);
    GroupsShape(ws);
  }

  // ---------------------------------------------------------------------
  // The fallback figure

  /** `words[:100]`. */
  function FirstWords(description: string): (ws: seq<string>)
    ensures AllWords(ws)
  {
    var words := Words(description);
    words[..Min(|words|, MaxWords)]
  }

  /** Only the first `MaxWords` words are laid out, and a blank
      description has none. */
  lemma FirstWordsSpec(description: string)
    ensures |FirstWords(description)| <= MaxWords
    ensures FirstWords(description) == Words(description)[..|FirstWords(description)|]
    ensures |FirstWords(description)| == Min(|Words(description)|, MaxWords)
    ensures |Words(description)| <= MaxWords ==> FirstWords(description) == Words(description)
    ensures FirstWords(description) == [] <==> Blank(description)
  {
  }

  /** A word that does not fit finishes the current line and starts the next. */
  lemma WrapStepBreak(ws: seq<string>, i: nat)
    requires i < |ws|
    requires |JoinWords(Fill(ws[..i]).open)| + 1 + |ws[i]| > Width
    ensures Render(Fill(ws[..i + 1]).done) ==
      Render(Fill(ws[..i]).done) + [JoinWords(Fill(ws[..i]).open)]
    ensures JoinWords(Fill(ws[..i + 1]).open) == ws[i]
  {
    FillNext(ws, i);
    RenderAppend(Fill(ws[..i]).done, Fill(ws[..i]).open);
  }

  /** A word that fits is appended to the current line after a space, or
      becomes the current line when that is empty. */
  lemma WrapStepAppend(ws: seq<string>, i: nat)
    requires i < |ws|
    requires |JoinWords(Fill(ws[..i]).open)| + 1 + |ws[i]| <= Width
    ensures Fill(ws[..i + 1]).done == Fill(ws[..i]).done
    ensures Fill(ws[..i]).open != [] ==>
      JoinWords(Fill(ws[..i + 1]).open) == JoinWords(Fill(ws[..i]).open) + " " + ws[i]
    ensures Fill(ws[..i]).open == [] ==> JoinWords(Fill(ws[..i + 1]).open) == ws[i]
  {
    FillNext(ws, i);
    var open := Fill(ws[..i]).open;
    if open != [] {
      JoinAppend(open, ws[i]);
    } else {
      assert open + [ws[i]] == [ws[i]];
    }
  }

  /** The wrapping loop of `generate_simple_diagram`. */
  method WrapDescription(description: string) returns (lines: seq<string>)
    ensures lines == Lines(FirstWords(description))
  {
    var words := Words(description);
    var first := words[..Min(|words|, MaxWords)];
    lines := [];
    var currentLine := "";
    for i := 0 to |first|
      invariant lines == Render(Fill(first[..i]).done)
      invariant currentLine == JoinWords(Fill(first[..i]).open)
      invariant currentLine == "" <==> i == 0
    {
      var word := first[i];
      assert IsWord(word);
      FillShape(first[..i]);
      if |currentLine + " " + word| > Width {
        WrapStepBreak(first, i);
        lines := lines + [currentLine];
        currentLine := word;
      } else {
        WrapStepAppend(first, i);
        if currentLine != "" {
          currentLine := currentLine + " " + word;
        } else {
          currentLine := word;
        }
      }
    }
    assert first[..|first|] == first;
    FillShape(first);
    if currentLine != "" {
      RenderAppend(Fill(first).done, Fill(first).open);
      lines := lines + [currentLine];
    }
  }

  /** The texts a fallback figure shows, in drawing order, its title and
      the image format it is saved in. */
  datatype Figure = Figure(title: string, texts: seq<string>, format: string)

  /** `generate_simple_diagram`: draws the captions, at most `MaxLines`
      wrapped lines and an ellipsis exactly when there were more lines. */
  method GenerateSimpleDiagram(description: string, outputFormat: string) returns (figure: Figure)
    ensures figure.title == Title && figure.format == outputFormat
    ensures var lines := Lines(FirstWords(description));
      figure.texts == Captions + lines[..Min(|lines|, MaxLines)] +
        (if |lines| > MaxLines then [Ellipsis] else [])
    ensures |figure.texts| <= |Captions| + MaxLines + 1
    ensures |Lines(FirstWords(description))| > MaxLines <==> |figure.texts| == |Captions| + MaxLines + 1
  {
    var texts := Captions;
    var lines := WrapDescription(description);
    var shown := lines[..Min(|lines|, MaxLines)];
    for i := 0 to |shown|
      invariant texts == Captions + shown[..i]
    {
      assert shown[..i + 1] == shown[..i] + [shown[i]];
      texts := texts + [shown[i]];
    }
    assert shown[..|shown|] == shown;
    if |lines| > MaxLines {
      texts := texts + [Ellipsis];
    }
    figure := Figure(Title, texts, outputFormat);
  }

  /** A blank description draws no description line and no ellipsis. */
  lemma BlankDescription(description: string)
    requires Blank(description)
    ensures Lines(FirstWords(description)) == []
  {
    WrapEmpty(FirstWords(description));
  }
}
