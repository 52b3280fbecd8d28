/**
 Budgeted selection of upstream context for a prompt (backend/assistant_context.py).
 Paragraph splitting, keyword scores and the JSON encoder are inputs; lengths are in characters.
 */
module ContextBudget {
  import opened Numbers
  import opened Texts

  const MARKER := "\n...（片段截斷）"

  /** An excerpt: the position of its chunk in the text, and the part taken. */
  datatype Excerpt = Excerpt(index: int, text: string)
  type Score = (string, int) -> int

  /** What is taken of a chunk when so many characters remain. */
  type Clipper = (string, int) -> string

  function ClipChunk(chunk: string, limit: int): string {
    if |chunk| <= limit then chunk else RStrip(Take(chunk, limit - 24)) + MARKER
  }

  // ----- ranking

  function Enumerate(chunks: seq<string>): seq<Excerpt> {
    seq(|chunks|, i requires 0 <= i < |chunks| => Excerpt(i, chunks[i]))
  }

  /** Sort keys are integers here; equal keys keep their order. */
  function InsertBy(key: Excerpt -> int, x: Excerpt, sorted: seq<Excerpt>): (r: seq<Excerpt>)
    ensures multiset(r) == multiset(sorted) + multiset{x}
  {
    if sorted == [] || key(x) <= key(sorted[0]) then [x] + sorted
    else
      assert sorted == [sorted[0]] + sorted[1..];
      [sorted[0]] + InsertBy(key, x, sorted[1..])
  }

  /** A stable sort. */
  function SortBy(key: Excerpt -> int, xs: seq<Excerpt>): (r: seq<Excerpt>)
    ensures multiset(r) == multiset(xs)
  {
    if xs == [] then [] else
      assert xs == [xs[0]] + xs[1..];
      InsertBy(key, xs[0], SortBy(key, xs[1..]))
  }

  function ByScore(score: Score): Excerpt -> int { (x: Excerpt) => -score(x.text, x.index) }

  function ByIndex(): Excerpt -> int { (x: Excerpt) => x.index }

  /** Highest score first, earlier chunks first among equals. */
  function Ranked(chunks: seq<string>, score: Score): seq<Excerpt> {
    SortBy(ByScore(score), Enumerate(chunks))
  }

  ghost predicate SortedBy(key: Excerpt -> int, xs: seq<Excerpt>) {
    forall i, j | 0 <= i < j < |xs| :: key(xs[i]) <= key(xs[j])
  }

  lemma {:induction false} InsertKeepsSorted(key: Excerpt -> int, x: Excerpt, sorted: seq<Excerpt>)
    requires SortedBy(key, sorted)
    ensures SortedBy(key, InsertBy(key, x, sorted))
  {
    if sorted != [] && key(x) > key(sorted[0]) {
      InsertKeepsSorted(key, x, sorted[1..]);
      var rest := InsertBy(key, x, sorted[1..]);
      forall j | 0 <= j < |rest| ensures key(sorted[0]) <= key(rest[j]) {
        assert rest[j] in multiset(rest);
        if rest[j] != x {
          assert rest[j] in multiset(sorted[1..]);
          assert rest[j] in sorted[1..];
        }
      }
    }
  }

  /** A stable sort leaves a permutation in order of the key. */
  lemma {:induction false} SortIsSorted(key: Excerpt -> int, xs: seq<Excerpt>)
    ensures SortedBy(key, SortBy(key, xs))
  {
    if xs != [] {
      SortIsSorted(key, xs[1..]);
      InsertKeepsSorted(key, xs[0], SortBy(key, xs[1..]));
    }
  }

  /** By key, and by position among equal keys. */
  predicate Before(key: Excerpt -> int, x: Excerpt, y: Excerpt) {
    key(x) < key(y) || (key(x) == key(y) && x.index < y.index)
  }

  ghost predicate RankedBy(key: Excerpt -> int, xs: seq<Excerpt>) {
    forall i, j | 0 <= i < j < |xs| :: Before(key, xs[i], xs[j])
  }

  lemma RankCons(key: Excerpt -> int, x: Excerpt, xs: seq<Excerpt>)
    requires RankedBy(key, xs) && forall y | y in xs :: Before(key, x, y)
    ensures RankedBy(key, [x] + xs)
  {
  }

  lemma {:induction false} InsertKeepsRank(key: Excerpt -> int, x: Excerpt, sorted: seq<Excerpt>)
    requires RankedBy(key, sorted) && forall y | y in sorted :: x.index < y.index
    ensures RankedBy(key, InsertBy(key, x, sorted))
  {
    if sorted == [] {
    } else if key(x) <= key(sorted[0]) {
      forall y | y in sorted ensures Before(key, x, y) {
        var j :| 0 <= j < |sorted| && sorted[j] == y;
        assert j > 0 ==> Before(key, sorted[0], sorted[j]);
      }
      RankCons(key, x, sorted);
    } else {
      InsertKeepsRank(key, x, sorted[1..]);
      var rest := InsertBy(key, x, sorted[1..]);
      forall y | y in rest ensures Before(key, sorted[0], y) {
        assert y in multiset(rest);
        if y != x {
          assert y in multiset(sorted[1..]);
          var j :| 0 <= j < |sorted[1..]| && sorted[1..][j] == y;
          assert Before(key, sorted[0], sorted[j + 1]);
        }
      }
      RankCons(key, sorted[0], rest);
    }
  }

  lemma {:induction false} SortIsStable(key: Excerpt -> int, xs: seq<Excerpt>)
    requires forall i, j | 0 <= i < j < |xs| :: xs[i].index < xs[j].index
    ensures RankedBy(key, SortBy(key, xs))
  {
    if xs != [] {
      SortIsStable(key, xs[1..]);
      var rest := SortBy(key, xs[1..]);
      forall y | y in rest ensures xs[0].index < y.index {
        assert y in multiset(rest);
        assert y in multiset(xs[1..]);
        assert y in xs[1..];
      }
      InsertKeepsRank(key, xs[0], rest);
    }
  }

  /** The ranking holds every chunk once, by falling score, earlier chunks first among equals. */
  lemma RankingIsStable(chunks: seq<string>, score: Score)
    ensures multiset(Ranked(chunks, score)) == multiset(Enumerate(chunks))
    ensures var ranked := Ranked(chunks, score);
            forall i, j | 0 <= i < j < |ranked| ::
              || score(ranked[i].text, ranked[i].index) > score(ranked[j].text, ranked[j].index)
              || (score(ranked[i].text, ranked[i].index) == score(ranked[j].text, ranked[j].index)
                  && ranked[i].index < ranked[j].index)
  {
    SortIsStable(ByScore(score), Enumerate(chunks));
    var ranked := Ranked(chunks, score);
    assert forall i, j | 0 <= i < j < |ranked| :: Before(ByScore(score), ranked[i], ranked[j]);
  }

  // ----- selection

  function Clip(): Clipper { (chunk: string, room: int) => ClipChunk(chunk, Min(|chunk|, room)) }

  function Taken(clip: Clipper, x: Excerpt, room: int): Excerpt {
    Excerpt(x.index, clip(x.text, room))
  }

  /** The excerpts taken from the ranking, from position i on, until no room remains. */
  function Pick(clip: Clipper, ranked: seq<Excerpt>, i: nat, room: int): seq<Excerpt>
    decreases |ranked| - i
  {
    if i >= |ranked| || room <= 0 then []
    else
      var taken := Taken(clip, ranked[i], room);
      [taken] + Pick(clip, ranked, i + 1, room - |taken.text| - 2)
  }

  function Picked(chunks: seq<string>, score: Score, limit: int): seq<Excerpt> {
    Pick(Clip(), Ranked(chunks, score), 0, limit)
  }

  function Snippets(xs: seq<Excerpt>): seq<string> {
    if xs == [] then [] else [xs[0].text] + Snippets(xs[1..])
  }

  function Total(xs: seq<Excerpt>): nat {
    if xs == [] then 0 else |xs[0].text| + Total(xs[1..])
  }

  function Note(agent: nat, omitted: nat): string {
    "\n\n（系統已依 Agent " + Decimal(agent) + " 任務精選前序片段，約省略 " + Decimal(omitted) + " 字。）"
  }

  function Assembled(chunks: seq<string>, score: Score, limit: int): string {
    Strip(Join(Snippets(SortBy(ByIndex(), Picked(chunks, score, limit)))))
  }

  /** The output, shortened to make room for the note about what is missing if that fits the limit. */
  function Annotated(output: string, note: string, missing: int, limit: int): string {
    if missing > 0 && |note| < limit then Take(output, limit - |note|) + note else output
  }

  /** The relevant context of a text of the given length that splits into these chunks. */
  function Selected(chunks: seq<string>, score: Score, textLength: nat, agent: nat, limit: int): string {
    if chunks == [] then ""
    else
      var output := Assembled(chunks, score, limit);
      var omitted := Max(textLength - |output|, 0);
      Annotated(output, Note(agent, omitted), omitted, limit)
  }

  method PickExcerpts(clip: Clipper, ranked: seq<Excerpt>, limit: int) returns (selected: seq<Excerpt>)
    ensures selected == Pick(clip, ranked, 0, limit)
  {
    selected := [];
    var used, i := 0, 0;
    while i < |ranked|
      invariant 0 <= i <= |ranked|
      invariant selected + Pick(clip, ranked, i, limit - used) == Pick(clip, ranked, 0, limit)
    {
      var remaining := limit - used;
      if remaining <= 0 {
        break;
      }
      var taken := Taken(clip, ranked[i], remaining);
      Reassociate(selected, taken, Pick(clip, ranked, i + 1, remaining - |taken.text| - 2));
      selected := selected + [taken];
      used := used + |taken.text| + 2;
      i := i + 1;
      if used >= limit {
        break;
      }
    }
  }

  lemma Reassociate(a: seq<Excerpt>, x: Excerpt, b: seq<Excerpt>)
    ensures a + ([x] + b) == (a + [x]) + b
  {
  }

  /** As much of the start as the limit leaves beside the note, then the note. */
  ghost predicate StartAndNote(output: string, assembled: string, note: string, limit: int) {
    && |output| == Min(|assembled|, limit - |note|) + |note|
    && |note| <= |output| && output[|output| - |note|..] == note && output[..|output| - |note|] <= assembled
  }

  lemma StartAndNoteOf(assembled: string, note: string, limit: int)
    requires |note| < limit
    ensures StartAndNote(Take(assembled, limit - |note|) + note, assembled, note, limit)
  {
    var start := Take(assembled, limit - |note|);
    assert (start + note)[..|start|] == start && (start + note)[|start|..] == note;
  }

  /**
   All of the assembled excerpts, or their start and a note within the limit that says how
   much of the text is missing.
   */
  ghost predicate IsSelection(output: string, chunks: seq<string>, score: Score, textLength: nat, agent: nat,
                              limit: int) {
    if chunks == [] then output == ""
    else
      var assembled := Assembled(chunks, score, limit);
      || (output == assembled && (textLength <= |assembled| || |Note(agent, textLength - |assembled|)| >= limit))
      || (textLength > |assembled| && |output| <= limit
          && StartAndNote(output, assembled, Note(agent, textLength - |assembled|), limit))
  }

  lemma AnnotatedAs(assembled: string, note: string, missing: int, limit: int) returns (output: string)
    ensures output == Annotated(assembled, note, missing, limit)
    ensures if missing > 0 && |note| < limit then |output| <= limit && StartAndNote(output, assembled, note, limit)
            else output == assembled
  {
    output := Annotated(assembled, note, missing, limit);
    if missing > 0 && |note| < limit {
      StartAndNoteOf(assembled, note, limit);
    }
  }

  lemma SelectedIsSelection(chunks: seq<string>, score: Score, textLength: nat, agent: nat, limit: int)
    returns (output: string)
    ensures output == Selected(chunks, score, textLength, agent, limit)
    ensures IsSelection(output, chunks, score, textLength, agent, limit)
  {
    output := Selected(chunks, score, textLength, agent, limit);
    if chunks != [] {
      var assembled := Assembled(chunks, score, limit);
      var omitted := Max(textLength - |assembled|, 0);
      var _ := AnnotatedAs(assembled, Note(agent, omitted), omitted, limit);
    }
  }

  method SelectRelevantContext(chunks: seq<string>, score: Score, textLength: nat, agent: nat, limit: int)
    returns (output: string)
    ensures output == Selected(chunks, score, textLength, agent, limit)
    ensures limit >= 1 ==> |output| <= limit + 9
    ensures IsSelection(output, chunks, score, textLength, agent, limit)
  {
    if limit >= 1 {
      SelectionBound(chunks, score, textLength, agent, limit);
    }
    if chunks == [] {
      return "";
    }
    var selected := PickExcerpts(Clip(), Ranked(chunks, score), limit);
    output := Strip(Join(Snippets(SortBy(ByIndex(), selected))));
    var omitted := Max(textLength - |output|, 0);
    if omitted > 0 {
      var note := Note(agent, omitted);
      if |note| < limit {
        StartAndNoteOf(output, note, limit);
        output := Take(output, limit - |note|) + note;
      }
    }
  }

  /** The text is the whole chunk, or the start of it followed by the clip marker. */
  ghost predicate ExcerptOf(text: string, chunk: string) {
    text == chunk || exists kept :: kept <= chunk && text == kept + MARKER
  }

  /** The k-th excerpt is what the room left by the earlier ones allows of the k-th ranked chunk. */
  lemma {:induction false} PickFollows(clip: Clipper, ranked: seq<Excerpt>, i: nat, room: int, k: nat)
    requires k < |Pick(clip, ranked, i, room)|
    ensures i + k < |ranked|
    ensures var picked := Pick(clip, ranked, i, room);
            var left := room - Total(picked[..k]) - 2 * k;
            left > 0 && picked[k] == Taken(clip, ranked[i + k], left)
    decreases k
  {
    if k > 0 {
      var taken := Taken(clip, ranked[i], room);
      var rest := Pick(clip, ranked, i + 1, room - |taken.text| - 2);
      PickFollows(clip, ranked, i + 1, room - |taken.text| - 2, k - 1);
      TotalOfPrefix(taken, rest, k);
    } else {
      assert Pick(clip, ranked, i, room)[..0] == [];
    }
  }

  lemma TotalOfPrefix(x: Excerpt, xs: seq<Excerpt>, k: nat)
    requires 0 < k <= |xs| + 1
    ensures Total(([x] + xs)[..k]) == |x.text| + Total(xs[..k - 1])
  {
    assert ([x] + xs)[..k] == [x] + xs[..k - 1];
    TotalCons(x, xs[..k - 1]);
  }

  /** Ranked chunks are left over only once the excerpts and their separators have used up the room. */
  lemma {:induction false} PickStopsWhenSpent(clip: Clipper, ranked: seq<Excerpt>, i: nat, room: int)
    requires i <= |ranked|
    ensures var picked := Pick(clip, ranked, i, room);
            |picked| == |ranked| - i || (|picked| < |ranked| - i && Total(picked) + 2 * |picked| >= room)
    decreases |ranked| - i
  {
    if i < |ranked| && room > 0 {
      var taken := Taken(clip, ranked[i], room);
      PickStopsWhenSpent(clip, ranked, i + 1, room - |taken.text| - 2);
      TotalCons(taken, Pick(clip, ranked, i + 1, room - |taken.text| - 2));
    }
  }

  /** An excerpt is of the chunk it is placed as: all of it, or the start of it with the clip marker. */
  lemma PickIsHonest(chunks: seq<string>, score: Score, limit: int, k: nat)
    requires k < |Picked(chunks, score, limit)|
    ensures k < |chunks| && k < |Ranked(chunks, score)|
    ensures var excerpt, ranked := Picked(chunks, score, limit)[k], Ranked(chunks, score)[k];
            && excerpt.index == ranked.index && 0 <= ranked.index < |chunks|
            && ranked.text == chunks[ranked.index] && ExcerptOf(excerpt.text, ranked.text)
  {
    ExcerptIsHonest(Ranked(chunks, score), limit, k);
    RankedIsChunk(chunks, score, k);
  }

  lemma ExcerptIsHonest(ranked: seq<Excerpt>, limit: int, k: nat)
    requires k < |Pick(Clip(), ranked, 0, limit)|
    ensures k < |ranked|
    ensures var excerpt := Pick(Clip(), ranked, 0, limit)[k];
            excerpt.index == ranked[k].index && ExcerptOf(excerpt.text, ranked[k].text)
  {
    var room := KthExcerpt(Clip(), ranked, limit, k);
    ClipIsHonest(ranked[k].text, room);
  }

  lemma KthExcerpt(clip: Clipper, ranked: seq<Excerpt>, limit: int, k: nat) returns (room: int)
    requires k < |Pick(clip, ranked, 0, limit)|
    ensures k < |ranked| && room > 0
    ensures Pick(clip, ranked, 0, limit)[k] == Taken(clip, ranked[k], room)
  {
    room := limit - Total(Pick(clip, ranked, 0, limit)[..k]) - 2 * k;
    PickFollows(clip, ranked, 0, limit, k);
  }

  lemma RankedIsChunk(chunks: seq<string>, score: Score, k: nat)
    requires k < |Ranked(chunks, score)|
    ensures |Ranked(chunks, score)| == |chunks|
    ensures var x := Ranked(chunks, score)[k]; 0 <= x.index < |chunks| && x.text == chunks[x.index]
  {
    var ranked, all := Ranked(chunks, score), Enumerate(chunks);
    SomethingIsRanked(chunks, score);
    assert ranked[k] in multiset(ranked);
    assert ranked[k] in all;
  }

  lemma ClipIsHonest(chunk: string, room: int)
    ensures ExcerptOf(Clip()(chunk, room), chunk)
  {
    var kept := RStrip(Take(chunk, Min(|chunk|, room) - 24));
    assert kept <= chunk;
  }

  ghost predicate Digits(s: string) {
    forall i | 0 <= i < |s| :: '0' <= s[i] <= '9'
  }

  lemma DigitsThenOther(x: string, s: string, y: string, t: string)
    requires s != "" && t != "" && !('0' <= s[0] <= '9') && !('0' <= t[0] <= '9')
    requires Digits(x) && Digits(y) && x + s == y + t
    ensures x == y && s == t
  {
    assert (x + s)[|x|] == s[0] && (y + t)[|y|] == t[0];
    assert (y + t)[|x|] == s[0] && (x + s)[|y|] == t[0];
    assert (x + s)[..|x|] == x && (y + t)[..|y|] == y;
    assert (x + s)[|x|..] == s && (y + t)[|y|..] == t;
  }

  /** Two numbers between fixed texts can be told apart if no digit follows them. */
  lemma NumbersInText(head: string, x: string, mid: string, u: string, tail: string, y: string, v: string)
    requires mid != "" && tail != "" && !('0' <= mid[0] <= '9') && !('0' <= tail[0] <= '9')
    requires Digits(x) && Digits(u) && Digits(y) && Digits(v)
    requires head + x + mid + u + tail == head + y + mid + v + tail
    ensures x == y && u == v
  {
    AfterHead(head, x, mid, u, tail);
    AfterHead(head, y, mid, v, tail);
    DigitsThenOther(x, mid + (u + tail), y, mid + (v + tail));
    assert (mid + (u + tail))[|mid|..] == u + tail && (mid + (v + tail))[|mid|..] == v + tail;
    DigitsThenOther(u, tail, v, tail);
  }

  lemma AfterHead(head: string, x: string, mid: string, u: string, tail: string)
    ensures (head + x + mid + u + tail)[|head|..] == x + (mid + (u + tail))
  {
  }

  lemma NumberReads(n: nat)
    ensures Digits(Decimal(n)) && Value(Decimal(n)) == n
  {
    DecimalReads(n);
    forall i | 0 <= i < |Decimal(n)| ensures '0' <= Decimal(n)[i] <= '9' {
      assert Decimal(n)[i] in Decimal(n);
    }
  }

  /** The note tells the agent and how much is missing: no two cases have the same note. */
  lemma NoteTells(agent: nat, omitted: nat, agent': nat, omitted': nat)
    requires Note(agent, omitted) == Note(agent', omitted')
    ensures agent == agent' && omitted == omitted'
  {
    NumberReads(agent);
    NumberReads(agent');
    NumberReads(omitted);
    NumberReads(omitted');
    NumbersInText("\n\n（系統已依 Agent ", Decimal(agent), " 任務精選前序片段，約省略 ", Decimal(omitted), " 字。）",
                  Decimal(agent'), Decimal(omitted'));
  }

  /**
   A chunk that fits is taken whole; of any other, the start that leaves 24 characters of the
   room is, without the white space at its end, and then the marker.
   */
  lemma ClipKeeps(chunk: string, room: int) returns (kept: string, blank: string)
    ensures |chunk| <= room ==> Clip()(chunk, room) == chunk
    ensures |chunk| > room ==>
              && kept + blank <= chunk && |kept + blank| == Max(0, room - 24)
              && Blank(blank) && (kept == "" || !IsSpace(kept[|kept| - 1]))
              && Clip()(chunk, room) == kept + "\n...（片段截斷）"
  {
    var start := Take(chunk, room - 24);
    kept := RStrip(start);
    blank := start[|kept|..];
    RStripDropsBlank(start);
    assert kept + blank == start;
  }

  lemma {:induction false} RStripDropsBlank(s: string)
    ensures Blank(s[|RStrip(s)|..])
  {
    if s != "" && IsSpace(s[|s| - 1]) {
      var front := s[..|s| - 1];
      RStripDropsBlank(front);
      assert s[|RStrip(s)|..] == front[|RStrip(s)|..] + [s[|s| - 1]];
    }
  }

  /** The text is made of the excerpts that were taken, in the order of their chunks. */
  lemma AssembledInOrder(chunks: seq<string>, score: Score, limit: int) returns (xs: seq<Excerpt>)
    ensures multiset(xs) == multiset(Picked(chunks, score, limit))
    ensures forall i, j | 0 <= i < j < |xs| :: xs[i].index <= xs[j].index
    ensures Assembled(chunks, score, limit) == Strip(Join(Snippets(xs)))
  {
    xs := SortBy(ByIndex(), Picked(chunks, score, limit));
    SortIsSorted(ByIndex(), Picked(chunks, score, limit));
    assert forall i, j | 0 <= i < j < |xs| :: ByIndex()(xs[i]) <= ByIndex()(xs[j]);
  }

  // ----- a text that fits

  lemma {:induction false} PickWhole(ranked: seq<Excerpt>, i: nat, room: int)
    requires i <= |ranked| && forall k | i <= k < |ranked| :: ranked[k].text != ""
    requires Total(ranked[i..]) + 2 * (|ranked| - i - 1) <= room
    ensures Pick(Clip(), ranked, i, room) == ranked[i..]
    decreases |ranked| - i
  {
    if i < |ranked| {
      var x := ranked[i];
      assert ranked[i..] == [x] + ranked[i + 1..];
      TotalCons(x, ranked[i + 1..]);
      ClipLength(x.text, Min(|x.text|, room));
      PickWhole(ranked, i + 1, room - |x.text| - 2);
    }
  }

  /** A permutation in order of a key that tells its elements apart is the only one. */
  lemma {:induction false} SortedPermutation(key: Excerpt -> int, xs: seq<Excerpt>, ys: seq<Excerpt>)
    requires multiset(xs) == multiset(ys) && SortedBy(key, xs)
    requires forall i, j | 0 <= i < j < |ys| :: key(ys[i]) < key(ys[j])
    ensures xs == ys
  {
    SameLength(xs, ys);
    if xs != [] {
      SameHead(key, xs, ys);
      SameTail(xs, ys);
      SortedPermutation(key, xs[1..], ys[1..]);
    }
  }

  lemma SameLength(xs: seq<Excerpt>, ys: seq<Excerpt>)
    requires multiset(xs) == multiset(ys)
    ensures |xs| == |ys|
  {
    assert |multiset(xs)| == |xs| && |multiset(ys)| == |ys|;
  }

  lemma SameTail(xs: seq<Excerpt>, ys: seq<Excerpt>)
    requires xs != [] && ys != [] && xs[0] == ys[0] && multiset(xs) == multiset(ys)
    ensures multiset(xs[1..]) == multiset(ys[1..])
  {
    assert xs == [xs[0]] + xs[1..] && ys == [ys[0]] + ys[1..];
    assert multiset(xs[1..]) == multiset(xs) - multiset{xs[0]};
    assert multiset(ys[1..]) == multiset(ys) - multiset{ys[0]};
  }

  lemma SameHead(key: Excerpt -> int, xs: seq<Excerpt>, ys: seq<Excerpt>)
    requires xs != [] && ys != [] && multiset(xs) == multiset(ys) && SortedBy(key, xs)
    requires forall i, j | 0 <= i < j < |ys| :: key(ys[i]) < key(ys[j])
    ensures xs[0] == ys[0]
  {
    assert xs[0] in multiset(ys) && ys[0] in multiset(xs);
    var i :| 0 <= i < |ys| && ys[i] == xs[0];
    var j :| 0 <= j < |xs| && xs[j] == ys[0];
    assert key(xs[0]) <= key(xs[j]);
  }

  lemma RankedTotal(chunks: seq<string>, score: Score)
    ensures Total(Ranked(chunks, score)) == Total(Enumerate(chunks))
    ensures multiset(SortBy(ByIndex(), Ranked(chunks, score))) == multiset(Enumerate(chunks))
    ensures SortBy(ByIndex(), Ranked(chunks, score)) == Enumerate(chunks)
  {
    var all := Enumerate(chunks);
    SortTotal(ByScore(score), all);
    SortIsSorted(ByIndex(), Ranked(chunks, score));
    assert forall i | 0 <= i < |all| :: ByIndex()(all[i]) == i;
    SortedPermutation(ByIndex(), SortBy(ByIndex(), Ranked(chunks, score)), all);
  }

  lemma EnumeratedSnippets(chunks: seq<string>)
    ensures Snippets(Enumerate(chunks)) == chunks
  {
    var all := Enumerate(chunks);
    SnippetsLength(all);
    forall k | 0 <= k < |chunks| ensures Snippets(all)[k] == chunks[k] {
      SnippetAt(all, k);
    }
  }

  lemma WholeIsPicked(chunks: seq<string>, score: Score, limit: int)
    requires chunks != [] && Paragraphs(chunks) && |Join(chunks)| <= limit
    ensures Picked(chunks, score, limit) == Ranked(chunks, score)
  {
    var ranked := Ranked(chunks, score);
    SomethingIsRanked(chunks, score);
    forall k | 0 <= k < |ranked| ensures ranked[k].text != "" {
      RankedIsChunk(chunks, score, k);
      assert ranked[k].text in chunks;
    }
    RankedTotal(chunks, score);
    EnumeratedSnippets(chunks);
    SnippetsLength(Enumerate(chunks));
    JoinLength(chunks);
    assert ranked[0..] == ranked;
    PickWhole(ranked, 0, limit);
  }

  /** Paragraphs that fit the limit are kept whole and in their own order, whatever their scores. */
  lemma WholeTextIsKept(chunks: seq<string>, score: Score, agent: nat, limit: int)
    requires chunks != [] && Paragraphs(chunks) && |Join(chunks)| <= limit
    ensures Selected(chunks, score, |Join(chunks)|, agent, limit) == Join(chunks)
  {
    WholeIsPicked(chunks, score, limit);
    RankedTotal(chunks, score);
    EnumeratedSnippets(chunks);
    StripJoined(chunks);
  }

  lemma StripJoined(chunks: seq<string>)
    requires chunks != [] && Paragraphs(chunks)
    ensures Strip(Join(chunks)) == Join(chunks)
  {
    JoinEnds(chunks);
    assert chunks[0] in chunks;
    var text := Join(chunks);
    StripRemovesPads("", text, "");
    assert "" + (text + "") == text;
  }

  // ----- the length bound

  /** A clipped excerpt leaves fourteen characters of an ample limit, and overruns a small one by at most nine. */
  lemma ClipLength(chunk: string, limit: int)
    requires limit >= 1
    ensures |chunk| <= limit ==> ClipChunk(chunk, limit) == chunk
    ensures |chunk| > limit >= 24 ==> |ClipChunk(chunk, limit)| <= limit - 14
    ensures |chunk| > limit && limit < 24 ==> |ClipChunk(chunk, limit)| == 10
    ensures |ClipChunk(chunk, Min(|chunk|, limit))| <= limit + 9
  {
    assert |MARKER| == 10;
  }

  lemma PickLength(ranked: seq<Excerpt>, limit: int)
    ensures var picked := Pick(Clip(), ranked, 0, limit);
            picked != [] ==> Total(picked) + 2 * (|picked| - 1) <= limit + 9
  {
    var picked := Pick(Clip(), ranked, 0, limit);
    if picked != [] {
      LastOfPick(Clip(), ranked, limit);
      ClipLength(ranked[|picked| - 1].text, Room(picked, limit));
    }
  }

  /** The room that the other excerpts leave the last one. */
  function Room(picked: seq<Excerpt>, limit: int): int
    requires picked != []
  {
    limit - Total(picked[..|picked| - 1]) - 2 * (|picked| - 1)
  }

  lemma LastOfPick(clip: Clipper, ranked: seq<Excerpt>, limit: int)
    requires Pick(clip, ranked, 0, limit) != []
    ensures var picked := Pick(clip, ranked, 0, limit);
            var last, room := |picked| - 1, Room(picked, limit);
            && room > 0 && last < |ranked| && picked[last] == Taken(clip, ranked[last], room)
            && Total(picked) + 2 * last == limit - room + |picked[last].text|
  {
    var picked := Pick(clip, ranked, 0, limit);
    PickFollows(clip, ranked, 0, limit, |picked| - 1);
    TotalSnoc(picked[..|picked| - 1], picked[|picked| - 1]);
    assert picked == picked[..|picked| - 1] + [picked[|picked| - 1]];
  }

  lemma {:induction false} TotalSnoc(xs: seq<Excerpt>, x: Excerpt)
    ensures Total(xs + [x]) == Total(xs) + |x.text|
  {
    if xs == [] {
      assert xs + [x] == [x] + xs;
      TotalCons(x, xs);
    } else {
      TotalSnoc(xs[1..], x);
      assert (xs + [x])[1..] == xs[1..] + [x];
    }
  }

  lemma TotalCons(x: Excerpt, xs: seq<Excerpt>)
    ensures Total([x] + xs) == |x.text| + Total(xs)
    ensures Snippets([x] + xs) == [x.text] + Snippets(xs)
  {
    assert ([x] + xs)[1..] == xs;
  }

  lemma {:induction false} InsertTotal(key: Excerpt -> int, x: Excerpt, xs: seq<Excerpt>)
    ensures Total(InsertBy(key, x, xs)) == Total(xs) + |x.text|
  {
    if xs == [] || key(x) <= key(xs[0]) {
      TotalCons(x, xs);
    } else {
      InsertTotal(key, x, xs[1..]);
      TotalCons(xs[0], InsertBy(key, x, xs[1..]));
    }
  }

  lemma {:induction false} SortTotal(key: Excerpt -> int, xs: seq<Excerpt>)
    ensures |SortBy(key, xs)| == |xs|
    ensures Total(SortBy(key, xs)) == Total(xs)
  {
    assert |SortBy(key, xs)| == |multiset(SortBy(key, xs))| == |multiset(xs)| == |xs|;
    if xs != [] {
      SortTotal(key, xs[1..]);
      InsertTotal(key, xs[0], SortBy(key, xs[1..]));
    }
  }

  lemma {:induction false} SnippetsLength(xs: seq<Excerpt>)
    ensures |Snippets(xs)| == |xs| && TotalLength(Snippets(xs)) == Total(xs)
  {
    if xs != [] {
      SnippetsLength(xs[1..]);
      assert ([xs[0].text] + Snippets(xs[1..]))[1..] == Snippets(xs[1..]);
    }
  }

  lemma AssembledBound(chunks: seq<string>, score: Score, limit: int)
    requires limit >= 1
    ensures |Assembled(chunks, score, limit)| <= limit + 9
  {
    var picked := Picked(chunks, score, limit);
    PickLength(Ranked(chunks, score), limit);
    SortTotal(ByIndex(), picked);
    SnippetsLength(SortBy(ByIndex(), picked));
    JoinLength(Snippets(SortBy(ByIndex(), picked)));
  }

  /** At most nine characters over: the clip marker is ten long, and is added to an excerpt of at least one. */
  lemma SelectionBound(chunks: seq<string>, score: Score, textLength: nat, agent: nat, limit: int)
    requires limit >= 1
    ensures |Selected(chunks, score, textLength, agent, limit)| <= limit + 9
    ensures var omitted := textLength - |Assembled(chunks, score, limit)|;
            chunks != [] && omitted > 0 && |Note(agent, omitted)| < limit ==>
              |Selected(chunks, score, textLength, agent, limit)| <= limit
  {
    AssembledBound(chunks, score, limit);
  }

  /** The slack is reached: a full first chunk leaves one character, which the marker overruns by nine. */
  lemma SelectionSlackIsReached(first: string, second: string, score: Score, textLength: nat, agent: nat)
    requires first != "" && |second| >= 2 && !IsSpace(first[0])
    requires score(first, 0) >= score(second, 1)
    requires var limit := |first| + 3;
             textLength <= limit + 9 || |Note(agent, textLength - (limit + 9))| >= limit
    ensures |Selected([first, second], score, textLength, agent, |first| + 3)| == (|first| + 3) + 9
  {
    var limit := |first| + 3;
    TwoRanked(first, second, score);
    TwoPicked(first, second, limit);
    TwoAssembled(first);
  }

  // ----- exactly when the limit is exceeded

  /** A paragraph as the splitting leaves it: not empty, and without white space at its ends. */
  predicate IsParagraph(s: string) {
    s != "" && !IsSpace(s[0]) && !IsSpace(s[|s| - 1])
  }

  ghost predicate Paragraphs(chunks: seq<string>) {
    forall c | c in chunks :: IsParagraph(c)
  }

  /** An excerpt exceeds its room exactly when it is clipped to so little that the marker alone does. */
  lemma ClipExceeds(chunk: string, room: int, slack: nat)
    requires room >= 1
    ensures |Clip()(chunk, room)| > room + slack <==> |chunk| > room && room + slack < |MARKER|
  {
    ClipLength(chunk, room);
  }

  lemma ClipShape(chunk: string, room: int)
    requires IsParagraph(chunk) && room > 0
    ensures Clip()(chunk, room) == MARKER || IsParagraph(Clip()(chunk, room))
  {
    RStripKeepsStart(Take(chunk, Min(|chunk|, room) - 24));
    assert !IsSpace(MARKER[9]);
  }

  lemma {:induction false} RStripKeepsStart(s: string)
    ensures s != "" && !IsSpace(s[0]) ==> RStrip(s) != ""
  {
    if s != "" && IsSpace(s[|s| - 1]) {
      RStripKeepsStart(s[..|s| - 1]);
    }
  }

  ghost predicate Shaped(xs: seq<Excerpt>) {
    forall x | x in xs :: x.text == MARKER || IsParagraph(x.text)
  }

  lemma PickShape(chunks: seq<string>, score: Score, limit: int)
    requires Paragraphs(chunks)
    ensures Shaped(Picked(chunks, score, limit))
  {
    var picked := Picked(chunks, score, limit);
    forall x | x in picked ensures x.text == MARKER || IsParagraph(x.text) {
      var k :| 0 <= k < |picked| && picked[k] == x;
      KthShape(chunks, score, limit, k);
    }
  }

  lemma KthShape(chunks: seq<string>, score: Score, limit: int, k: nat)
    requires Paragraphs(chunks) && k < |Picked(chunks, score, limit)|
    ensures var text := Picked(chunks, score, limit)[k].text; text == MARKER || IsParagraph(text)
  {
    var room := KthExcerpt(Clip(), Ranked(chunks, score), limit, k);
    RankedIsChunk(chunks, score, k);
    ClipShape(Ranked(chunks, score)[k].text, room);
  }

  /** The newline that stripping removes when the first excerpt is nothing but the marker. */
  function Lead(xs: seq<Excerpt>): nat {
    if xs != [] && SortBy(ByIndex(), xs)[0].text == MARKER then 1 else 0
  }

  lemma StripEnds(s: string, first: string)
    requires s != "" && first <= s && !IsSpace(s[|s| - 1])
    requires first == MARKER || IsParagraph(first)
    ensures |Strip(s)| == |s| - if first == MARKER then 1 else 0
  {
    if first == MARKER {
      assert s[0] == '\n' && s[1] == '.';
      assert LStrip(s) == LStrip(s[1..]) == s[1..];
    } else {
      assert LStrip(s) == s;
    }
  }

  /** How long the joined excerpts are once they are stripped. */
  lemma JoinedLength(xs: seq<Excerpt>)
    requires xs != [] && Shaped(xs)
    ensures |Strip(Join(Snippets(SortBy(ByIndex(), xs))))| == Total(xs) + 2 * (|xs| - 1) - Lead(xs)
  {
    var sorted := SortBy(ByIndex(), xs);
    SortTotal(ByIndex(), xs);
    SameShape(xs, sorted);
    StrippedLength(sorted);
  }

  lemma StrippedLength(xs: seq<Excerpt>)
    requires xs != [] && Shaped(xs)
    ensures |Strip(Join(Snippets(xs)))| == Total(xs) + 2 * (|xs| - 1) - if xs[0].text == MARKER then 1 else 0
  {
    SnippetsLength(xs);
    JoinLength(Snippets(xs));
    SnippetsShape(xs);
    JoinEnds(Snippets(xs));
    assert xs[0] in xs;
    StripEnds(Join(Snippets(xs)), xs[0].text);
  }

  lemma SnippetsShape(xs: seq<Excerpt>)
    requires Shaped(xs)
    ensures forall t | t in Snippets(xs) :: t != "" && !IsSpace(t[|t| - 1])
    ensures xs != [] ==> Snippets(xs) != [] && Snippets(xs)[0] == xs[0].text
  {
    SnippetsLength(xs);
    forall t | t in Snippets(xs) ensures t != "" && !IsSpace(t[|t| - 1]) {
      var k :| 0 <= k < |Snippets(xs)| && Snippets(xs)[k] == t;
      SnippetAt(xs, k);
      assert xs[k] in xs && !IsSpace(MARKER[9]);
    }
  }

  lemma {:induction false} SnippetAt(xs: seq<Excerpt>, k: nat)
    requires k < |xs|
    ensures k < |Snippets(xs)| && Snippets(xs)[k] == xs[k].text
  {
    SnippetsLength(xs);
    if k > 0 {
      SnippetAt(xs[1..], k - 1);
    }
  }

  /** How long the assembled excerpts are. */
  lemma AssembledLength(chunks: seq<string>, score: Score, limit: int)
    requires limit >= 1 && chunks != [] && Paragraphs(chunks)
    ensures var picked := Picked(chunks, score, limit);
            && picked != []
            && |Assembled(chunks, score, limit)| == Total(picked) + 2 * (|picked| - 1) - Lead(picked)
  {
    SomethingIsRanked(chunks, score);
    PickShape(chunks, score, limit);
    JoinedLength(Picked(chunks, score, limit));
  }

  lemma SameShape(xs: seq<Excerpt>, ys: seq<Excerpt>)
    requires Shaped(xs) && multiset(xs) == multiset(ys)
    ensures Shaped(ys)
  {
    forall y | y in ys ensures y.text == MARKER || IsParagraph(y.text) {
      assert y in multiset(ys);
      assert y in xs;
    }
  }

  lemma SomethingIsRanked(chunks: seq<string>, score: Score)
    ensures |Ranked(chunks, score)| == |chunks|
  {
    var ranked, all := Ranked(chunks, score), Enumerate(chunks);
    assert |multiset(ranked)| == |ranked| && |multiset(all)| == |all|;
  }

  /**
   The last excerpt taken is clipped so short that, with the slack and without the newline of a
   marker that comes first, its room cannot hold the marker; and there is no note that would
   cut the text: nothing is missing, or the note would not fit.
   */
  predicate Exceeds(chunks: seq<string>, score: Score, textLength: nat, agent: nat, limit: int, slack: nat) {
    var ranked, picked := Ranked(chunks, score), Picked(chunks, score, limit);
    && 0 < |picked| <= |ranked|
    && |ranked[|picked| - 1].text| > Room(picked, limit)
    && Room(picked, limit) + Lead(picked) + slack < |MARKER|
    && !Noted(Assembled(chunks, score, limit), textLength, agent, limit)
  }

  /** Something is missing, and a note about it fits. */
  predicate Noted(assembled: string, textLength: nat, agent: nat, limit: int) {
    textLength > |assembled| && |Note(agent, textLength - |assembled|)| < limit
  }

  lemma AssembledExceedsIff(chunks: seq<string>, score: Score, limit: int, slack: nat)
    requires limit >= 1 && chunks != [] && Paragraphs(chunks)
    ensures var ranked, picked := Ranked(chunks, score), Picked(chunks, score, limit);
            && 0 < |picked| <= |ranked|
            && (|Assembled(chunks, score, limit)| > limit + slack <==>
                |ranked[|picked| - 1].text| > Room(picked, limit) &&
                    Room(picked, limit) + Lead(picked) + slack < |MARKER|)
  {
    AssembledLength(chunks, score, limit);
    PickExceedsIff(Ranked(chunks, score), limit, Lead(Picked(chunks, score, limit)) + slack);
  }

  lemma PickExceedsIff(ranked: seq<Excerpt>, limit: int, slack: nat)
    requires Pick(Clip(), ranked, 0, limit) != []
    ensures var picked := Pick(Clip(), ranked, 0, limit);
            var last, room := |picked| - 1, Room(picked, limit);
            && last < |ranked|
            && (Total(picked) + 2 * last > limit + slack <==> |ranked[last].text| > room && room + slack < |MARKER|)
  {
    var picked := Pick(Clip(), ranked, 0, limit);
    LastOfPick(Clip(), ranked, limit);
    ClipExceeds(ranked[|picked| - 1].text, Room(picked, limit), slack);
  }

  lemma AnnotatedLength(output: string, note: string, missing: int, limit: int)
    ensures if missing > 0 && |note| < limit then |Annotated(output, note, missing, limit)| <= limit
            else Annotated(output, note, missing, limit) == output
  {
  }

  /** Exactly then the relevant context is more than the slack longer than the limit. */
  lemma SelectionExceedsIff(chunks: seq<string>, score: Score, textLength: nat, agent: nat, limit: int, slack: nat)
    requires limit >= 1 && Paragraphs(chunks)
    ensures |Selected(chunks, score, textLength, agent, limit)| > limit + slack <==>
            Exceeds(chunks, score, textLength, agent, limit, slack)
  {
    if chunks != [] {
      AssembledExceedsIff(chunks, score, limit, slack);
      var assembled := Assembled(chunks, score, limit);
      var omitted := Max(textLength - |assembled|, 0);
      AnnotatedLength(assembled, Note(agent, omitted), omitted, limit);
    } else {
      SomethingIsRanked(chunks, score);
    }
  }

  lemma SortOne(key: Excerpt -> int, x: Excerpt)
    ensures SortBy(key, [x]) == [x]
  {
    assert [x][1..] == [];
  }

  lemma SortTwo(key: Excerpt -> int, x: Excerpt, y: Excerpt)
    requires key(x) <= key(y)
    ensures SortBy(key, [x, y]) == [x, y]
  {
    SortOne(key, y);
    assert [x, y][1..] == [y];
  }

  lemma TwoRanked(first: string, second: string, score: Score)
    requires score(first, 0) >= score(second, 1)
    ensures Ranked([first, second], score) == [Excerpt(0, first), Excerpt(1, second)]
  {
    assert Enumerate([first, second]) == [Excerpt(0, first), Excerpt(1, second)];
    SortTwo(ByScore(score), Excerpt(0, first), Excerpt(1, second));
  }

  lemma TwoPicked(first: string, second: string, limit: int)
    requires limit == |first| + 3 && |second| >= 2
    ensures Pick(Clip(), [Excerpt(0, first), Excerpt(1, second)], 0, limit) == [Excerpt(0, first), Excerpt(1, MARKER)]
  {
    var ranked := [Excerpt(0, first), Excerpt(1, second)];
    assert RStrip(Take(second, 1 - 24)) + MARKER == MARKER;
    assert Pick(Clip(), ranked, 2, 1 - |MARKER| - 2) == [];
    assert Pick(Clip(), ranked, 1, 1) == [Excerpt(1, MARKER)];
  }

  lemma TwoAssembled(first: string)
    requires first != "" && !IsSpace(first[0])
    ensures |Strip(Join(Snippets(SortBy(ByIndex(), [Excerpt(0, first), Excerpt(1, MARKER)]))))| == |first| + 12
  {
    SortTwo(ByIndex(), Excerpt(0, first), Excerpt(1, MARKER));
    TotalCons(Excerpt(1, MARKER), []);
    TotalCons(Excerpt(0, first), [Excerpt(1, MARKER)]);
    assert [Excerpt(0, first)] + [Excerpt(1, MARKER)] == [Excerpt(0, first), Excerpt(1, MARKER)];
    var parts := [first] + ([MARKER] + []);
    assert Snippets([Excerpt(0, first), Excerpt(1, MARKER)]) == parts;
    assert parts[1..] == [MARKER] && Join([MARKER]) == MARKER;
    var text := Join(parts);
    assert parts[0] == first && |parts| == 2;
    assert text == first + "\n\n" + MARKER;
    assert |MARKER| == 10 && !IsSpace(MARKER[9]);
    assert text[0] == first[0] && text[|text| - 1] == MARKER[9];
  }
}
