/**
 Splitting the paragraphs of a page into titled chunks (workers/discovery/extractor.py).  What a
 chunking must be is stated on its own; it turns out to leave the splitter no choice at all.
 */
module Chunker {
  import opened Wrappers
  import opened Text

  datatype TextChunk = TextChunk(title: Option<string>, text: string, index: nat, start: nat, end: nat)

  /** A heading starts with a capital letter, is short, does not end in a full stop and is one line. */
  predicate IsHeading(isUpper: char -> bool, p: string)
    requires p != ""
  {
    |p| < 120 && p[|p| - 1] != '.' && isUpper(p[0]) && '\n' !in p
  }

  /** A body paragraph with the number of headings before it and the last of them. */
  datatype Tagged = Tagged(section: nat, title: Option<string>, text: string)

  /**
   What a reader knows after some paragraphs: how many headings came, the last of them, and the
   non-blank paragraphs that are no headings, in order and tagged.
   */
  datatype Page = Page(headings: nat, title: Option<string>, body: seq<Tagged>) {
    function Next(isUpper: char -> bool, p: string): Page {
      if p == "" then this
      else if IsHeading(isUpper, p) then Page(headings + 1, Some(p), body)
      else Page(headings, title, body + [Tagged(headings, title, p)])
    }
  }

  function Read(isUpper: char -> bool, paragraphs: seq<string>): Page {
    if paragraphs == [] then Page(0, None, [])
    else Read(isUpper, paragraphs[..|paragraphs| - 1]).Next(isUpper, Strip(paragraphs[|paragraphs| - 1]))
  }

  /** `"\n\n".join(...)` */
  function Join(parts: seq<string>): string {
    if parts == [] then ""
    else if |parts| == 1 then parts[0]
    else Join(parts[..|parts| - 1]) + "\n\n" + parts[|parts| - 1]
  }

  function Texts(tagged: seq<Tagged>): (r: seq<string>)
    ensures |r| == |tagged|
  {
    seq(|tagged|, i requires 0 <= i < |tagged| => tagged[i].text)
  }

  /** `sum(len(p) for p in parts)`: the separators do not count. */
  function Total(tagged: seq<Tagged>): nat {
    if tagged == [] then 0 else Total(tagged[..|tagged| - 1]) + |tagged[|tagged| - 1].text|
  }

  // ---- what a chunking is ----------------------------------------------------------------------------

  /** Where the last run ends, and the next one begins. */
  function LastEnd(ends: seq<nat>): nat {
    if ends == [] then 0 else ends[|ends| - 1]
  }

  /** A run lies in a single section, and is cut no later than when it is full. */
  ghost predicate IsRun(body: seq<Tagged>, from: nat, to: nat, max: int) {
    && from < to <= |body|
    && (forall i :: from <= i < to ==> body[i].section == body[from].section && body[i].title == body[from].title)
    && (from + 1 < to ==> Total(body[from..to - 1]) < max)
  }

  /** A run is cut no earlier than when it is full, or the next paragraph is in section `next` or none is left. */
  ghost predicate IsComplete(body: seq<Tagged>, from: nat, to: nat, max: int, next: nat) {
    from < to <= |body| &&
    (body[from].section == (if to < |body| then body[to].section else next) ==> Total(body[from..to]) >= max)
  }

  /** The runs so far, when any further paragraph would be in section `next`. */
  ghost predicate AreRuns(body: seq<Tagged>, ends: seq<nat>, max: int, next: nat) {
    ends != [] ==>
      var n := |ends| - 1;
      && AreRuns(body, ends[..n], max, next)
      && IsRun(body, LastEnd(ends[..n]), ends[n], max) && IsComplete(body, LastEnd(ends[..n]), ends[n], max, next)
  }

  ghost function ChunkOf(body: seq<Tagged>, from: nat, to: nat, index: nat, start: nat): TextChunk
    requires from < to <= |body|
  {
    var text := Join(Texts(body[from..to]));
    TextChunk(body[from].title, text, index, start, start + |text|)
  }

  ghost function EndOf(chunks: seq<TextChunk>): nat {
    if chunks == [] then 0 else chunks[|chunks| - 1].end
  }

  /** The chunks of the runs: numbered from zero, with offsets that tile their texts. */
  ghost predicate AreChunks(chunks: seq<TextChunk>, body: seq<Tagged>, ends: seq<nat>) {
    && |ends| == |chunks|
    && (chunks != [] ==>
          var n := |chunks| - 1;
          && AreChunks(chunks[..n], body, ends[..n])
          && LastEnd(ends[..n]) < ends[n] <= |body|
          && chunks[n] == ChunkOf(body, LastEnd(ends[..n]), ends[n], n, EndOf(chunks[..n])))
  }

  ghost predicate AreCuts(body: seq<Tagged>, ends: seq<nat>, max: int) {
    ends != [] ==>
      var n := |ends| - 1;
      AreCuts(body, ends[..n], max) && IsCut(body, LastEnd(ends[..n]), ends[n], max)
  }

  /** A chunking covers the whole body; after the last paragraph nothing forces a cut. */
  ghost predicate IsChunking(body: seq<Tagged>, ends: seq<nat>, max: int) {
    LastEnd(ends) == |body| && AreCuts(body, ends, max)
  }

  ghost predicate IsCut(body: seq<Tagged>, from: nat, to: nat, max: int) {
    IsRun(body, from, to, max) && (to < |body| ==> IsComplete(body, from, to, max, 0))
  }

  /** The chunks of a page. */
  ghost predicate IsSplit(chunks: seq<TextChunk>, body: seq<Tagged>, max: int) {
    exists ends: seq<nat> :: IsChunking(body, ends, max) && AreChunks(chunks, body, ends)
  }

  // ---- the splitter --------------------------------------------------------------------------------------

  /** The chunks so far, and what is still in the buffer. */
  ghost predicate Progress(chunks: seq<TextChunk>, parts: seq<string>, section: Option<string>, offset: nat,
                           body: seq<Tagged>, headings: nat, ends: seq<nat>, max: int) {
    && AreChunks(chunks, body, ends) && offset == EndOf(chunks)
    && AreRuns(body, ends, max, headings)
    && (forall i :: 0 <= i < |body| ==> body[i].section <= headings)
    && Buffered(parts, section, body, headings, LastEnd(ends))
  }

  /** The buffer holds the paragraphs from `from` on, all of the current section. */
  ghost predicate Buffered(parts: seq<string>, section: Option<string>, body: seq<Tagged>, headings: nat, from: nat) {
    && from <= |body| && parts == Texts(body[from..])
    && (forall i :: from <= i < |body| ==> body[i].section == headings && body[i].title == section)
  }

  lemma RunSurvives(body: seq<Tagged>, t: Tagged, from: nat, to: nat, max: int)
    requires IsRun(body, from, to, max) && IsComplete(body, from, to, max, t.section)
    ensures IsRun(body + [t], from, to, max) && IsComplete(body + [t], from, to, max, t.section)
    ensures forall c, start :: ChunkOf(body + [t], from, to, c, start) == ChunkOf(body, from, to, c, start)
  {
    var more := body + [t];
    assert more[from..to] == body[from..to] && more[from..to - 1] == body[from..to - 1];
    assert forall i :: from <= i < to ==> more[i] == body[i];
  }

  lemma {:induction false} RunsSurvive(chunks: seq<TextChunk>, body: seq<Tagged>, t: Tagged, ends: seq<nat>, max: int)
    requires AreRuns(body, ends, max, t.section) && AreChunks(chunks, body, ends)
    ensures AreRuns(body + [t], ends, max, t.section) && AreChunks(chunks, body + [t], ends)
  {
    if ends != [] {
      var n := |ends| - 1;
      RunsSurvive(chunks[..n], body, t, ends[..n], max);
      RunSurvives(body, t, LastEnd(ends[..n]), ends[n], max);
    }
  }

  lemma NewParagraph(chunks: seq<TextChunk>, parts: seq<string>, section: Option<string>, p: string, offset: nat,
                     body: seq<Tagged>, headings: nat, ends: seq<nat>, max: int)
    requires Progress(chunks, parts, section, offset, body, headings, ends, max)
    ensures Progress(chunks, parts + [p], section, offset, body + [Tagged(headings, section, p)], headings, ends, max)
  {
    var t := Tagged(headings, section, p);
    RunsSurvive(chunks, body, t, ends, max);
    assert (body + [t])[LastEnd(ends)..] == body[LastEnd(ends)..] + [t];
  }

  lemma NewRun(body: seq<Tagged>, parts: seq<string>, section: Option<string>, headings: nat, from: nat, max: int)
    requires Buffered(parts, section, body, headings, from) && parts != []
    requires from + 1 < |body| ==> Total(body[from..|body| - 1]) < max
    ensures IsRun(body, from, |body|, max) && body[from].section == headings && body[from].title == section
    ensures Texts(body[from..|body|]) == parts
    ensures Total(body[from..]) >= max ==> IsComplete(body, from, |body|, max, headings)
    ensures IsComplete(body, from, |body|, max, headings + 1)
  {
    assert body[from..|body|] == body[from..];
    assert |parts| == |body| - from;
  }

  /** In a later section the earlier runs need not be full. */
  lemma {:induction false} RunsEnterSection(body: seq<Tagged>, ends: seq<nat>, max: int, next: nat)
    requires AreRuns(body, ends, max, next) && forall i :: 0 <= i < |body| ==> body[i].section <= next
    ensures AreRuns(body, ends, max, next + 1)
  {
    if ends != [] {
      RunsEnterSection(body, ends[..|ends| - 1], max, next);
    }
  }

  lemma ChunkAdded(chunks: seq<TextChunk>, body: seq<Tagged>, ends: seq<nat>, chunk: TextChunk)
    requires AreChunks(chunks, body, ends) && LastEnd(ends) < |body|
    requires chunk == ChunkOf(body, LastEnd(ends), |body|, |chunks|, EndOf(chunks))
    ensures AreChunks(chunks + [chunk], body, ends + [|body|])
  {
    assert (ends + [|body|])[..|ends|] == ends && (chunks + [chunk])[..|chunks|] == chunks;
  }

  lemma RunAdded(body: seq<Tagged>, ends: seq<nat>, max: int, next: nat)
    requires AreRuns(body, ends, max, next)
    requires IsRun(body, LastEnd(ends), |body|, max) && IsComplete(body, LastEnd(ends), |body|, max, next)
    ensures AreRuns(body, ends + [|body|], max, next)
  {
    assert (ends + [|body|])[..|ends|] == ends;
  }

  /** Flushing the buffer: into the current section when it is full, into the next one at a heading. */
  lemma Flushed(chunks: seq<TextChunk>, parts: seq<string>, section: Option<string>, offset: nat, body: seq<Tagged>,
                headings: nat, ends: seq<nat>, max: int, chunk: TextChunk, title: Option<string>, next: nat)
    requires Progress(chunks, parts, section, offset, body, headings, ends, max) && parts != []
    requires LastEnd(ends) + 1 < |body| ==> Total(body[LastEnd(ends)..|body| - 1]) < max
    requires chunk == TextChunk(section, Join(parts), |chunks|, offset, offset + |Join(parts)|)
    requires next == headings + 1 || (next == headings && title == section && Total(body[LastEnd(ends)..]) >= max)
    ensures Progress(chunks + [chunk], [], title, chunk.end, body, next, ends + [|body|], max)
  {
    NewRun(body, parts, section, headings, LastEnd(ends), max);
    if next == headings + 1 {
      RunsEnterSection(body, ends, max, headings);
    }
    ChunkAdded(chunks, body, ends, chunk);
    RunAdded(body, ends, max, next);
    assert Texts(body[|body|..]) == [];
  }

  lemma NothingFlushed(chunks: seq<TextChunk>, section: Option<string>, offset: nat, body: seq<Tagged>,
                       headings: nat, ends: seq<nat>, max: int, title: Option<string>, next: nat)
    requires Progress(chunks, [], section, offset, body, headings, ends, max)
    requires next == headings + 1 || (next == headings && title == section)
    ensures Progress(chunks, [], title, offset, body, next, ends, max)
  {
    assert |body[LastEnd(ends)..]| == |Texts(body[LastEnd(ends)..])| == 0;
    if next == headings + 1 {
      RunsEnterSection(body, ends, max, headings);
    }
  }

  /** The runs of a finished split are a chunking. */
  lemma {:induction false} RunsAreCuts(body: seq<Tagged>, ends: seq<nat>, max: int, next: nat)
    requires AreRuns(body, ends, max, next)
    ensures AreCuts(body, ends, max)
  {
    if ends != [] {
      RunsAreCuts(body, ends[..|ends| - 1], max, next);
    }
  }

  /** `flush`: the buffer, if there is anything in it, becomes a chunk. */
  method Flush(chunks: seq<TextChunk>, section: Option<string>, parts: seq<string>, offset: nat,
               ghost body: seq<Tagged>,
               ghost headings: nat, ghost ends: seq<nat>, ghost max: int, ghost title: Option<string>, ghost next: nat)
    returns (all: seq<TextChunk>, end: nat, ghost cuts: seq<nat>)
    requires Progress(chunks, parts, section, offset, body, headings, ends, max)
    requires LastEnd(ends) + 1 < |body| ==> Total(body[LastEnd(ends)..|body| - 1]) < max
    requires next == headings + 1 || (next == headings && title == section && Total(body[LastEnd(ends)..]) >= max)
    ensures Progress(all, [], title, end, body, next, cuts, max)
  {
    if |parts| == 0 {
      NothingFlushed(chunks, section, offset, body, headings, ends, max, title, next);
      return chunks, offset, ends;
    }
    var joined := Join(parts);
    var chunk := TextChunk(section, joined, |chunks|, offset, offset + |joined|);
    Flushed(chunks, parts, section, offset, body, headings, ends, max, chunk, title, next);
    return chunks + [chunk], chunk.end, ends + [|body|];
  }

  /** Between two paragraphs the buffer is not full. */
  ghost predicate Ready(chunks: seq<TextChunk>, parts: seq<string>, offset: nat, page: Page, ends: seq<nat>, max: int) {
    && Progress(chunks, parts, page.title, offset, page.body, page.headings, ends, max)
    && (parts != [] ==> Total(page.body[LastEnd(ends)..]) < max)
  }

  /** What a heading does, and the end of the page: flush, and go on in a new section. */
  method EnterSection(chunks: seq<TextChunk>, section: Option<string>, parts: seq<string>, offset: nat,
                      ghost page: Page, ghost next: Page, ghost ends: seq<nat>, ghost max: int)
    returns (all: seq<TextChunk>, end: nat, ghost cuts: seq<nat>)
    requires Ready(chunks, parts, offset, page, ends, max) && section == page.title
    requires next.headings == page.headings + 1 && next.body == page.body
    ensures Ready(all, [], end, next, cuts, max)
  {
    if |parts| > 0 {
      PrefixIsLess(parts, page.body, LastEnd(ends));
    } else {
      assert |page.body[LastEnd(ends)..]| == 0;
    }
    all, end, cuts := Flush(chunks, section, parts, offset, page.body, page.headings, ends, max, next.title,
        next.headings);
  }

  /** What a body paragraph does: join the buffer, and flush it when it is full. */
  method AddParagraph(chunks: seq<TextChunk>, section: Option<string>, parts: seq<string>, offset: nat, p: string,
                      max: int,
                      ghost page: Page, ghost next: Page, ghost ends: seq<nat>)
    returns (all: seq<TextChunk>, rest: seq<string>, end: nat, ghost cuts: seq<nat>)
    requires Ready(chunks, parts, offset, page, ends, max) && section == page.title
    requires next == Page(page.headings, page.title, page.body + [Tagged(page.headings, page.title, p)])
    ensures Ready(all, rest, end, next, cuts, max)
  {
    NewParagraph(chunks, parts, section, p, offset, page.body, page.headings, ends, max);
    BufferTotal(parts, page.body, Tagged(page.headings, section, p), LastEnd(ends));
    all, rest, end, cuts := chunks, parts + [p], offset, ends;
    var total := Sum(rest);
    if total >= max {
      all, end, cuts := Flush(chunks, section, rest, offset, next.body, next.headings, ends, max, section,
          next.headings);
      rest := [];
    }
  }

  method SplitIntoChunks(paragraphs: seq<string>, isUpper: char -> bool, max: int)
    returns (chunks: seq<TextChunk>)
    ensures IsSplit(chunks, Read(isUpper, paragraphs).body, max)
  {
    chunks := [];
    ghost var ends: seq<nat> := [];
    var section: Option<string> := None;
    var parts: seq<string> := [];
    var offset: nat := 0;
    ghost var page := Page(0, None, []);
    for k := 0 to |paragraphs|
      invariant page == Read(isUpper, paragraphs[..k]) && page.title == section
      invariant Ready(chunks, parts, offset, page, ends, max)
    {
      var stripped := Strip(paragraphs[k]);
      ReadOneMore(isUpper, paragraphs, k);
      if |stripped| == 0 {
        continue;
      }
      ghost var next := page.Next(isUpper, stripped);
      if IsHeading(isUpper, stripped) {
        chunks, offset, ends := EnterSection(chunks, section, parts, offset, page, next, ends, max);
        parts, section := [], Some(stripped);
      } else {
        chunks, parts, offset, ends := AddParagraph(chunks, section, parts, offset, stripped, max, page, next, ends);
      }
      page := next;
    }
    assert paragraphs[..|paragraphs|] == paragraphs;
    ghost var last := Page(page.headings + 1, None, page.body);
    chunks, offset, ends := EnterSection(chunks, section, parts, offset, page, last, ends, max);
    FinishedIsChunking(chunks, offset, last, ends, max);
  }

  /** With an empty buffer the runs are a chunking. */
  lemma FinishedIsChunking(chunks: seq<TextChunk>, offset: nat, page: Page, ends: seq<nat>, max: int)
    requires Ready(chunks, [], offset, page, ends, max)
    ensures IsChunking(page.body, ends, max) && AreChunks(chunks, page.body, ends)
  {
    RunsAreCuts(page.body, ends, max, page.headings);
    assert |Texts(page.body[LastEnd(ends)..])| == 0;
  }

  lemma ReadOneMore(isUpper: char -> bool, paragraphs: seq<string>, k: nat)
    requires k < |paragraphs|
    ensures Read(isUpper, paragraphs[..k + 1]) == Read(isUpper, paragraphs[..k]).Next(isUpper, Strip(paragraphs[k]))
  {
    assert paragraphs[..k + 1][..k] == paragraphs[..k];
  }

  lemma PrefixIsLess(parts: seq<string>, body: seq<Tagged>, from: nat)
    requires from <= |body| && parts == Texts(body[from..]) && parts != []
    ensures from < |body| && Total(body[from..|body| - 1]) <= Total(body[from..])
  {
    assert |parts| == |body| - from;
    assert body[from..][..|body| - from - 1] == body[from..|body| - 1];
  }

  lemma BufferTotal(parts: seq<string>, body: seq<Tagged>, t: Tagged, from: nat)
    requires from <= |body| && parts == Texts(body[from..])
    ensures Total((body + [t])[from..]) == Sum(parts + [t.text])
    ensures (body + [t])[from..|body|] == body[from..]
  {
    assert (body + [t])[from..] == body[from..] + [t];
    assert Texts(body[from..] + [t]) == parts + [t.text];
    TotalIsSum(body[from..] + [t], parts + [t.text]);
  }

  function Sum(parts: seq<string>): nat {
    if parts == [] then 0 else Sum(parts[..|parts| - 1]) + |parts[|parts| - 1]|
  }

  lemma {:induction false} TotalIsSum(tagged: seq<Tagged>, parts: seq<string>)
    requires parts == Texts(tagged)
    ensures Total(tagged) == Sum(parts)
  {
    if tagged != [] {
      TotalIsSum(tagged[..|tagged| - 1], parts[..|parts| - 1]);
    }
  }

  // ---- what the body of a page is ---------------------------------------------------------------------------

  /** Short, in one line, begun with a capital letter and not ended by a full stop. */
  ghost predicate IsTitle(isUpper: char -> bool, s: string) {
    0 < |s| < 120 && isUpper(s[0]) && s[|s| - 1] != '.' && forall i :: 0 <= i < |s| ==> s[i] != '\n'
  }

  ghost predicate TitleAt(isUpper: char -> bool, paragraphs: seq<string>, q: nat) {
    q < |paragraphs| && IsTitle(isUpper, Strip(paragraphs[q]))
  }

  /** Neither blank nor a title. */
  ghost predicate BodyAt(isUpper: char -> bool, paragraphs: seq<string>, q: nat) {
    q < |paragraphs| && Strip(paragraphs[q]) != "" && !IsTitle(isUpper, Strip(paragraphs[q]))
  }

  /** The last title among the first `to` paragraphs. */
  ghost predicate IsLastTitle(isUpper: char -> bool, paragraphs: seq<string>, to: nat, title: Option<string>) {
    match title
    case None => forall q: nat :: q < to ==> !TitleAt(isUpper, paragraphs, q)
    case Some(t) =>
      exists q: nat :: q < to && TitleAt(isUpper, paragraphs, q) && Strip(paragraphs[q]) == t
                       && forall r: nat :: q < r < to ==> !TitleAt(isUpper, paragraphs, r)
  }

  ghost function TitlesBefore(isUpper: char -> bool, paragraphs: seq<string>, to: nat): nat {
    if to == 0 then 0
    else TitlesBefore(isUpper, paragraphs, to - 1) + (if TitleAt(isUpper, paragraphs, to - 1) then 1 else 0)
  }

  /** `places` lists where the body comes from: every body paragraph, in order, under its title. */
  ghost predicate ComesFrom(isUpper: char -> bool, paragraphs: seq<string>, body: seq<Tagged>, places: seq<nat>) {
    && |places| == |body|
    && (forall k, l :: 0 <= k < l < |places| ==> places[k] < places[l])
    && (forall q: nat :: q in places <==> BodyAt(isUpper, paragraphs, q))
    && (forall k :: 0 <= k < |body| ==> IsTaggedFrom(isUpper, paragraphs, body[k], places[k]))
  }

  ghost predicate IsTaggedFrom(isUpper: char -> bool, paragraphs: seq<string>, tagged: Tagged, q: nat) {
    && q < |paragraphs| && tagged.text == Strip(paragraphs[q])
    && IsLastTitle(isUpper, paragraphs, q, tagged.title)
    && tagged.section == TitlesBefore(isUpper, paragraphs, q)
  }

  lemma HeadingIsTitle(isUpper: char -> bool, s: string)
    requires s != ""
    ensures IsHeading(isUpper, s) <==> IsTitle(isUpper, s)
  {
  }

  lemma {:induction false} TitlesOfPrefix(isUpper: char -> bool, paragraphs: seq<string>, p: string, to: nat)
    requires to <= |paragraphs|
    ensures TitlesBefore(isUpper, paragraphs + [p], to) == TitlesBefore(isUpper, paragraphs, to)
  {
    if to > 0 {
      TitlesOfPrefix(isUpper, paragraphs, p, to - 1);
    }
  }

  /** What was true of the first paragraphs stays true when one more comes. */
  lemma TagsOfPrefix(isUpper: char -> bool, paragraphs: seq<string>, p: string, tagged: Tagged, q: nat)
    requires IsTaggedFrom(isUpper, paragraphs, tagged, q)
    ensures IsTaggedFrom(isUpper, paragraphs + [p], tagged, q)
  {
    TitlesOfPrefix(isUpper, paragraphs, p, q);
    LastTitleOfPrefix(isUpper, paragraphs, p, q, tagged.title);
  }

  lemma LastTitleOfPrefix(isUpper: char -> bool, paragraphs: seq<string>, p: string, to: nat, title: Option<string>)
    requires to <= |paragraphs|
    ensures IsLastTitle(isUpper, paragraphs + [p], to, title) <==> IsLastTitle(isUpper, paragraphs, to, title)
  {
    var all := paragraphs + [p];
    assert forall q: nat :: q < |paragraphs| ==> all[q] == paragraphs[q];
    assert forall q: nat :: q < to ==> (TitleAt(isUpper, all, q) <==> TitleAt(isUpper, paragraphs, q));
  }

  lemma LastTitleAdvances(isUpper: char -> bool, paragraphs: seq<string>, p: string, title: Option<string>)
    requires IsLastTitle(isUpper, paragraphs, |paragraphs|, title)
    ensures var all, s := paragraphs + [p], Strip(p);
            IsLastTitle(isUpper, all, |all|, if IsTitle(isUpper, s) then Some(s) else title)
  {
    LastTitleOfPrefix(isUpper, paragraphs, p, |paragraphs|, title);
    var all, n := paragraphs + [p], |paragraphs|;
    assert all[n] == p;
    assert TitleAt(isUpper, all, n) <==> IsTitle(isUpper, Strip(p));
    if !IsTitle(isUpper, Strip(p)) && title.Some? {
      var q: nat :| q < n && TitleAt(isUpper, all, q) && Strip(all[q]) == title.value
          && forall r: nat :: q < r < n ==> !TitleAt(isUpper, all, r);
      assert forall r: nat :: q < r < |all| ==> !TitleAt(isUpper, all, r);
    }
  }

  lemma TagsOfPrefixes(isUpper: char -> bool, paragraphs: seq<string>, body: seq<Tagged>, places: seq<nat>, p: string)
    requires ComesFrom(isUpper, paragraphs, body, places)
    ensures forall k :: 0 <= k < |body| ==> IsTaggedFrom(isUpper, paragraphs + [p], body[k], places[k])
    ensures forall q: nat :: q < |paragraphs| ==> (q in places <==> BodyAt(isUpper, paragraphs + [p], q))
    ensures forall k :: 0 <= k < |places| ==> places[k] < |paragraphs|
  {
    assert forall k :: 0 <= k < |places| ==> places[k] in places;
    assert forall q: nat :: q < |paragraphs| ==> (paragraphs + [p])[q] == paragraphs[q];
    forall k | 0 <= k < |body|
      ensures IsTaggedFrom(isUpper, paragraphs + [p], body[k], places[k])
    {
      TagsOfPrefix(isUpper, paragraphs, p, body[k], places[k]);
    }
  }

  lemma PlacesStay(isUpper: char -> bool, paragraphs: seq<string>, body: seq<Tagged>, places: seq<nat>, p: string)
    requires ComesFrom(isUpper, paragraphs, body, places) && !BodyAt(isUpper, paragraphs + [p], |paragraphs|)
    ensures ComesFrom(isUpper, paragraphs + [p], body, places)
  {
    TagsOfPrefixes(isUpper, paragraphs, body, places, p);
    assert forall k :: 0 <= k < |places| ==> places[k] in places;
  }

  lemma PlaceAdded(isUpper: char -> bool, paragraphs: seq<string>, body: seq<Tagged>, places: seq<nat>, p: string,
                   tagged: Tagged)
    requires ComesFrom(isUpper, paragraphs, body, places) && BodyAt(isUpper, paragraphs + [p], |paragraphs|)
    requires IsTaggedFrom(isUpper, paragraphs + [p], tagged, |paragraphs|)
    ensures ComesFrom(isUpper, paragraphs + [p], body + [tagged], places + [|paragraphs|])
  {
    TagsOfPrefixes(isUpper, paragraphs, body, places, p);
    var next := places + [|paragraphs|];
    assert forall q: nat :: q in next <==> q in places || q == |paragraphs|;
    assert forall k :: 0 <= k < |places| ==> places[k] in places;
  }

  /** Reading a page keeps each body paragraph, in order, under the last title before it. */
  lemma {:induction false} BodyIsOfPage(isUpper: char -> bool, paragraphs: seq<string>) returns (places: seq<nat>)
    ensures var page := Read(isUpper, paragraphs);
            && ComesFrom(isUpper, paragraphs, page.body, places)
            && IsLastTitle(isUpper, paragraphs, |paragraphs|, page.title)
            && page.headings == TitlesBefore(isUpper, paragraphs, |paragraphs|)
  {
    places := [];
    if paragraphs != [] {
      var n := |paragraphs| - 1;
      var page := Read(isUpper, paragraphs[..n]);
      var before := BodyIsOfPage(isUpper, paragraphs[..n]);
      assert paragraphs == paragraphs[..n] + [paragraphs[n]];
      TitlesOfPrefix(isUpper, paragraphs[..n], paragraphs[n], n);
      LastTitleAdvances(isUpper, paragraphs[..n], paragraphs[n], page.title);
      LastTitleOfPrefix(isUpper, paragraphs[..n], paragraphs[n], n, page.title);
      if Strip(paragraphs[n]) != "" {
        HeadingIsTitle(isUpper, Strip(paragraphs[n]));
      }
      if BodyAt(isUpper, paragraphs, n) {
        places := before + [n];
        PlaceAdded(isUpper, paragraphs[..n], page.body, before, paragraphs[n],
                   Tagged(page.headings, page.title, Strip(paragraphs[n])));
      } else {
        places := before;
        PlacesStay(isUpper, paragraphs[..n], page.body, before, paragraphs[n]);
      }
    }
  }

  /** Joined texts stand one after the other, with a blank line between any two. */
  lemma {:induction false} JoinOfConcat(parts: seq<string>, more: seq<string>)
    requires parts != [] && more != []
    ensures Join(parts + more) == Join(parts) + "\n\n" + Join(more)
  {
    var n := |more| - 1;
    assert (parts + more)[..|parts| + n] == parts + more[..n];
    if n == 0 {
      assert parts + more[..n] == parts;
    } else {
      JoinOfConcat(parts, more[..n]);
    }
  }

  // ---- consequences -----------------------------------------------------------------------------------------

  lemma {:induction false} TotalGrows(body: seq<Tagged>, from: nat, mid: nat, to: nat)
    requires from <= mid <= to <= |body|
    ensures Total(body[from..mid]) <= Total(body[from..to])
  {
    if mid < to {
      TotalGrows(body, from, mid, to - 1);
      assert body[from..to][..to - 1 - from] == body[from..to - 1];
    }
  }

  lemma LaterCutIsImpossible(body: seq<Tagged>, from: nat, to: nat, other: nat, max: int)
    requires IsCut(body, from, to, max) && IsCut(body, from, other, max)
    ensures other <= to
  {
    if to < other {
      assert body[to].section == body[from].section;
      TotalGrows(body, from, to, other - 1);
    }
  }

  /** Two chunkings that begin a run at the same place also end it at the same place. */
  lemma CutIsDetermined(body: seq<Tagged>, from: nat, to: nat, other: nat, max: int)
    requires IsCut(body, from, to, max) && IsCut(body, from, other, max)
    ensures to == other
  {
    LaterCutIsImpossible(body, from, to, other, max);
    LaterCutIsImpossible(body, from, other, to, max);
  }

  lemma {:induction false} CutAt(body: seq<Tagged>, ends: seq<nat>, max: int, c: nat)
    requires AreCuts(body, ends, max) && c < |ends|
    ensures IsCut(body, LastEnd(ends[..c]), ends[c], max)
  {
    var n := |ends| - 1;
    if c < n {
      CutAt(body, ends[..n], max, c);
      assert ends[..n][..c] == ends[..c];
    }
  }

  lemma NextCutAgrees(body: seq<Tagged>, ends: seq<nat>, others: seq<nat>, max: int, c: nat)
    requires AreCuts(body, ends, max) && AreCuts(body, others, max) && c < |ends| && c < |others|
    requires ends[..c] == others[..c]
    ensures ends[c] == others[c]
  {
    CutAt(body, ends, max, c);
    CutAt(body, others, max, c);
    CutIsDetermined(body, LastEnd(ends[..c]), ends[c], others[c], max);
  }

  /** Two ways to cut a body agree for as long as both go on. */
  lemma {:induction false} CutsAgree(body: seq<Tagged>, ends: seq<nat>, others: seq<nat>, max: int, c: nat)
    requires AreCuts(body, ends, max) && AreCuts(body, others, max) && c <= |ends| && c <= |others|
    ensures ends[..c] == others[..c]
  {
    if c > 0 {
      CutsAgree(body, ends, others, max, c - 1);
      NextCutAgrees(body, ends, others, max, c - 1);
      assert ends[..c] == ends[..c - 1] + [ends[c - 1]] && others[..c] == others[..c - 1] + [others[c - 1]];
    }
  }

  /** Two chunkings of one body are the same. */
  lemma ChunkingIsUnique(body: seq<Tagged>, ends: seq<nat>, others: seq<nat>, max: int)
    requires IsChunking(body, ends, max) && IsChunking(body, others, max)
    ensures ends == others
  {
    if |ends| <= |others| {
      NoCutAfterEnd(body, ends, others, max);
    } else {
      NoCutAfterEnd(body, others, ends, max);
    }
  }

  lemma NoCutAfterEnd(body: seq<Tagged>, ends: seq<nat>, others: seq<nat>, max: int)
    requires IsChunking(body, ends, max) && IsChunking(body, others, max) && |ends| <= |others|
    ensures ends == others
  {
    CutsAgree(body, ends, others, max, |ends|);
    if |ends| < |others| {
      CutAt(body, others, max, |ends|);
    }
  }

  lemma {:induction false} ChunksAreDetermined(chunks: seq<TextChunk>, others: seq<TextChunk>, body: seq<Tagged>,
                                               ends: seq<nat>)
    requires AreChunks(chunks, body, ends) && AreChunks(others, body, ends)
    ensures chunks == others
  {
    if ends != [] {
      var n := |ends| - 1;
      ChunksAreDetermined(chunks[..n], others[..n], body, ends[..n]);
      assert chunks == chunks[..n] + [chunks[n]] && others == others[..n] + [others[n]];
    }
  }

  /** The specification leaves no freedom: a page has one split, and the splitter computes it. */
  lemma SplitIsUnique(chunks: seq<TextChunk>, others: seq<TextChunk>, body: seq<Tagged>, max: int)
    requires IsSplit(chunks, body, max) && IsSplit(others, body, max)
    ensures chunks == others
  {
    var ends: seq<nat> :| IsChunking(body, ends, max) && AreChunks(chunks, body, ends);
    var cuts: seq<nat> :| IsChunking(body, cuts, max) && AreChunks(others, body, cuts);
    ChunkingIsUnique(body, ends, cuts, max);
    ChunksAreDetermined(chunks, others, body, ends);
  }

  /** The parts of all chunks, one after the other. */
  ghost function AllParts(body: seq<Tagged>, ends: seq<nat>, max: int): seq<string>
    requires AreCuts(body, ends, max)
  {
    if ends == [] then []
    else
      var n := |ends| - 1;
      AllParts(body, ends[..n], max) + Texts(body[LastEnd(ends[..n])..ends[n]])
  }

  lemma TextsSplit(body: seq<Tagged>, from: nat, to: nat)
    requires from <= to <= |body|
    ensures Texts(body[..to]) == Texts(body[..from]) + Texts(body[from..to])
  {
  }

  lemma {:induction false} PartsOfPrefix(body: seq<Tagged>, ends: seq<nat>, max: int)
    requires AreCuts(body, ends, max)
    ensures LastEnd(ends) <= |body| && AllParts(body, ends, max) == Texts(body[..LastEnd(ends)])
  {
    if ends != [] {
      var n := |ends| - 1;
      PartsOfPrefix(body, ends[..n], max);
      TextsSplit(body, LastEnd(ends[..n]), ends[n]);
    }
  }

  /** No paragraph is lost, repeated or moved: the parts of all chunks together are the body. */
  lemma ChunksCoverBody(body: seq<Tagged>, ends: seq<nat>, max: int)
    requires IsChunking(body, ends, max)
    ensures AllParts(body, ends, max) == Texts(body)
  {
    PartsOfPrefix(body, ends, max);
    assert body[..|body|] == body;
  }

  /** Offsets and numbers are consecutive, and the offsets of a chunk span its text. */
  lemma {:induction false} ChunksTile(chunks: seq<TextChunk>, body: seq<Tagged>, ends: seq<nat>, c: nat)
    requires AreChunks(chunks, body, ends) && c < |chunks|
    ensures chunks[c].index == c && chunks[c].end == chunks[c].start + |chunks[c].text|
    ensures chunks[c].start == if c == 0 then 0 else chunks[c - 1].end
  {
    var n := |chunks| - 1;
    if c < n {
      ChunksTile(chunks[..n], body, ends[..n], c);
    }
  }

  lemma {:induction false} JoinLength(parts: seq<string>)
    requires parts != []
    ensures |Join(parts)| == Sum(parts) + 2 * (|parts| - 1)
  {
    if |parts| == 1 {
      assert Sum(parts[..0]) == 0;
    } else {
      JoinLength(parts[..|parts| - 1]);
    }
  }

  lemma {:induction false} TotalSplits(body: seq<Tagged>, from: nat, to: nat)
    requires from <= to <= |body|
    ensures Total(body[..to]) == Total(body[..from]) + Total(body[from..to])
  {
    if from == to {
      assert body[from..to] == [];
    } else {
      TotalSplits(body, from, to - 1);
      assert body[..to][..to - 1] == body[..to - 1];
      assert body[from..to][..to - 1 - from] == body[from..to - 1];
    }
  }

  lemma {:induction false} EndOfPrefix(chunks: seq<TextChunk>, body: seq<Tagged>, ends: seq<nat>)
    requires AreChunks(chunks, body, ends)
    ensures |chunks| <= LastEnd(ends) <= |body|
    ensures EndOf(chunks) == Total(body[..LastEnd(ends)]) + 2 * (LastEnd(ends) - |chunks|)
  {
    if chunks != [] {
      var n := |chunks| - 1;
      var from, to := LastEnd(ends[..n]), ends[n];
      EndOfPrefix(chunks[..n], body, ends[..n]);
      TotalSplits(body, from, to);
      TotalIsSum(body[from..to], Texts(body[from..to]));
      JoinLength(Texts(body[from..to]));
    }
  }

  /** What the offsets measure: the body paragraphs, and two characters between those of one chunk. */
  lemma OffsetsMeasureBody(chunks: seq<TextChunk>, body: seq<Tagged>, max: int)
    requires IsSplit(chunks, body, max)
    ensures EndOf(chunks) == Total(body) + 2 * (|body| - |chunks|)
  {
    var ends: seq<nat> :| IsChunking(body, ends, max) && AreChunks(chunks, body, ends);
    EndOfPrefix(chunks, body, ends);
    assert body[..|body|] == body;
  }
}
