/** Compression of trace events: runs of token events become blocks, repeated tool events are dropped. */
module EventCompressor {
  import opened Options

  /** A string, with the four that matter here told apart. */
  datatype Word = Token | ReasoningToken | ToolStart | ToolEnd | Other(text: string)

  /** `rest` stands for the other fields, which are copied. */
  datatype Event = Event(kind: Option<Word>, name: Option<Word>, text: Option<string>, rest: string)

  predicate IsToken(e: Event) { e.kind == Some(Token) || e.kind == Some(ReasoningToken) }

  predicate IsTool(e: Event) { e.kind == Some(ToolStart) || e.kind == Some(ToolEnd) }

  function TextOf(e: Event): string {
    if e.text.Some? then e.text.value else ""
  }

  /** A name that only repeats the type is removed. */
  function Normal(e: Event): Event {
    if e.name == e.kind then e.(name := None) else e
  }

  /** The entries written so far, and the block of tokens that is still growing. */
  datatype State = State(entries: seq<Event>, block: Option<Event>)

  /** A tool event is dropped when the last entry written has its type and its original name. */
  predicate Repeats(entries: seq<Event>, e: Event) {
    IsTool(e) && entries != [] && entries[|entries| - 1].kind == e.kind && entries[|entries| - 1].name == e.name
  }

  function Flushed(s: State): seq<Event> {
    if s.block.Some? then s.entries + [s.block.value] else s.entries
  }

  predicate Continues(block: Option<Event>, e: Event) {
    block.Some? && IsToken(e) && block.value.kind == e.kind
  }

  function Next(s: State, e: Event): State {
    if Continues(s.block, e) then
      s.(block := Some(s.block.value.(text := Some(TextOf(s.block.value) + TextOf(e)))))
    else if Repeats(s.entries, e) then s
    else if IsToken(e) then State(Flushed(s), Some(Normal(e).(text := Some(TextOf(e)))))
    else State(Flushed(s) + [Normal(e)], None)
  }

  function After(events: seq<Event>): State {
    if events == [] then State([], None) else Next(After(events[..|events| - 1]), events[|events| - 1])
  }

  method CompressEvents(events: seq<Event>) returns (compressed: seq<Event>)
    ensures compressed == Flushed(After(events))
  {
    compressed := [];
    if events == [] { return; }
    var block: Option<Event> := None;
    for n := 0 to |events|
      invariant State(compressed, block) == After(events[..n])
    {
      assert events[..n + 1][..n] == events[..n];
      var e := events[n];
      var kind, name := e.kind, e.name;
      if name == kind { e := e.(name := None); }
      var isToken := kind == Some(Token) || kind == Some(ReasoningToken);
      var isTool := kind == Some(ToolStart) || kind == Some(ToolEnd);
      if block.Some? && isToken && block.value.kind == kind {
        var newText := TextOf(e);
        block := Some(block.value.(text := Some(TextOf(block.value) + newText)));
        continue;
      }
      if isTool && compressed != [] {
        var last := compressed[|compressed| - 1];
        if last.kind == kind && last.name == name { continue; }
      }
      if block.Some? {
        compressed := compressed + [block.value];
        block := None;
      }
      if isToken {
        block := Some(e.(text := Some(TextOf(e))));
      } else {
        compressed := compressed + [e];
      }
    }
    assert events[..|events|] == events;
    if block.Some? { compressed := compressed + [block.value]; }
  }

  // ---- What is kept, said without blocks ----

  /** Without the run of tokens of one type that ends the list. */
  function BeforeRun(kept: seq<Event>): (r: seq<Event>)
    ensures |r| <= |kept|
    decreases |kept|
  {
    if kept == [] || !IsToken(kept[|kept| - 1]) then kept else BeforeTokens(kept, kept[|kept| - 1].kind)
  }

  function BeforeTokens(kept: seq<Event>, kind: Option<Word>): (r: seq<Event>)
    ensures |r| <= |kept|
    decreases |kept|
  {
    if kept != [] && IsToken(kept[|kept| - 1]) && kept[|kept| - 1].kind == kind
    then BeforeTokens(kept[..|kept| - 1], kind) else kept
  }

  /** The tool event has the type and the original name of the event that stands before it, at most one
      run of tokens aside; a name that only repeats its type stands for no name there. */
  predicate Redundant(kept: seq<Event>, e: Event) {
    var before := BeforeRun(kept);
    IsTool(e) && before != [] && before[|before| - 1].kind == e.kind && Normal(before[|before| - 1]).name == e.name
  }

  /** The input without the redundant tool events. */
  function Kept(events: seq<Event>): seq<Event> {
    if events == [] then []
    else
      var kept, e := Kept(events[..|events| - 1]), events[|events| - 1];
      if Redundant(kept, e) then kept else kept + [e]
  }

  // ---- Expansion ----

  datatype Atom = Char(kind: Option<Word>, c: char) | Whole(event: Event)

  function Chars(kind: Option<Word>, text: string): (atoms: seq<Atom>)
    ensures |atoms| == |text| && forall i :: 0 <= i < |text| ==> atoms[i] == Char(kind, text[i])
  {
    seq(|text|, i requires 0 <= i < |text| => Char(kind, text[i]))
  }

  /** A token event is the characters of its text, each with the type; any other event is itself. */
  function Expand(e: Event): seq<Atom> {
    if IsToken(e) then Chars(e.kind, TextOf(e)) else [Whole(Normal(e))]
  }

  function ExpandAll(events: seq<Event>): seq<Atom> {
    if events == [] then [] else ExpandAll(events[..|events| - 1]) + Expand(events[|events| - 1])
  }

  lemma ExpandNext(events: seq<Event>, e: Event)
    ensures ExpandAll(events + [e]) == ExpandAll(events) + Expand(e)
  {
    assert (events + [e])[..|events|] == events;
  }

  lemma CharsSplit(kind: Option<Word>, a: string, b: string)
    ensures Chars(kind, a + b) == Chars(kind, a) + Chars(kind, b)
  {
  }

  // ---- The state follows what is kept ----

  /** The last entry written is the event before the last run of tokens. */
  ghost predicate SameLast(entries: seq<Event>, before: seq<Event>) {
    && (entries == [] <==> before == [])
    && (entries != [] ==>
          && entries[|entries| - 1].kind == before[|before| - 1].kind
          && (!IsToken(before[|before| - 1]) ==> entries[|entries| - 1].name == Normal(before[|before| - 1]).name))
  }

  ghost predicate Shape(s: State, kept: seq<Event>) {
    && (s.block.Some? <==> kept != [] && IsToken(kept[|kept| - 1]))
    && (s.block.Some? ==> s.block.value.kind == kept[|kept| - 1].kind)
    && SameLast(s.entries, BeforeRun(kept))
  }

  /** No two neighbours are token blocks of one type. */
  ghost predicate Separate(entries: seq<Event>) {
    forall i :: 0 < i < |entries| && IsToken(entries[i]) ==> entries[i - 1].kind != entries[i].kind
  }

  lemma RepeatsIsRedundant(s: State, kept: seq<Event>, e: Event)
    requires Shape(s, kept)
    ensures Repeats(s.entries, e) <==> Redundant(kept, e)
  {
  }

  lemma RunGrows(kept: seq<Event>, e: Event)
    requires kept != [] && IsToken(e) && kept[|kept| - 1].kind == e.kind
    ensures BeforeRun(kept + [e]) == BeforeRun(kept)
  {
    assert (kept + [e])[..|kept|] == kept;
  }

  lemma RunStarts(kept: seq<Event>, e: Event)
    requires kept == [] || kept[|kept| - 1].kind != e.kind || !IsToken(e)
    ensures BeforeRun(kept + [e]) == if IsToken(e) then kept else kept + [e]
  {
    var all := kept + [e];
    assert all[..|kept|] == kept;
    if IsToken(e) { assert BeforeRun(all) == BeforeTokens(all, e.kind) == BeforeTokens(kept, e.kind) == kept; }
  }

  lemma FlushedSameLast(s: State, kept: seq<Event>)
    requires Shape(s, kept)
    ensures SameLast(Flushed(s), kept)
  {
  }

  lemma NextKeepsShape(s: State, kept: seq<Event>, e: Event)
    requires Shape(s, kept)
    ensures Shape(Next(s, e), if Repeats(s.entries, e) then kept else kept + [e])
  {
    if Continues(s.block, e) {
      RunGrows(kept, e);
    } else if !Repeats(s.entries, e) {
      RunStarts(kept, e);
      FlushedSameLast(s, kept);
    }
  }

  lemma LongerText(block: Event, e: Event)
    requires IsToken(e) && block.kind == e.kind
    ensures Expand(block.(text := Some(TextOf(block) + TextOf(e)))) == Expand(block) + Expand(e)
  {
    CharsSplit(e.kind, TextOf(block), TextOf(e));
  }

  lemma Regroup(a: seq<Atom>, b: seq<Atom>, c: seq<Atom>)
    ensures a + (b + c) == a + b + c
  {
  }

  lemma LongerBlock(entries: seq<Event>, block: Event, longer: Event, e: Event)
    requires Expand(longer) == Expand(block) + Expand(e)
    ensures ExpandAll(entries + [longer]) == ExpandAll(entries + [block]) + Expand(e)
  {
    assert ExpandAll(entries + [longer]) == ExpandAll(entries) + Expand(longer) by { ExpandNext(entries, longer); }
    assert ExpandAll(entries + [block]) == ExpandAll(entries) + Expand(block) by { ExpandNext(entries, block); }
    Regroup(ExpandAll(entries), Expand(block), Expand(e));
  }

  lemma NextExpands(s: State, e: Event)
    ensures ExpandAll(Flushed(Next(s, e)))
            == if Repeats(s.entries, e) then ExpandAll(Flushed(s)) else ExpandAll(Flushed(s)) + Expand(e)
  {
    if Continues(s.block, e) {
      var block := s.block.value;
      LongerText(block, e);
      LongerBlock(s.entries, block, block.(text := Some(TextOf(block) + TextOf(e))), e);
    } else if IsToken(e) {
      ExpandNext(Flushed(s), Normal(e).(text := Some(TextOf(e))));
    } else if !Repeats(s.entries, e) {
      ExpandNext(Flushed(s), Normal(e));
      assert Normal(Normal(e)) == Normal(e);
    }
  }

  lemma NextStaysSeparate(s: State, kept: seq<Event>, e: Event)
    requires Shape(s, kept) && Separate(Flushed(s))
    ensures Separate(Flushed(Next(s, e)))
  {
    FlushedSameLast(s, kept);
    var before, after := Flushed(s), Flushed(Next(s, e));
    forall i | 0 < i < |after| && IsToken(after[i]) ensures after[i - 1].kind != after[i].kind {
      if i < |before| {
        assert after[i].kind == before[i].kind && after[i - 1].kind == before[i - 1].kind;
      }
    }
  }

  lemma {:induction false} ShapeHolds(events: seq<Event>)
    ensures Shape(After(events), Kept(events))
    decreases |events|
  {
    if events != [] {
      var n := |events| - 1;
      ShapeHolds(events[..n]);
      NextKeepsShape(After(events[..n]), Kept(events[..n]), events[n]);
      RepeatsIsRedundant(After(events[..n]), Kept(events[..n]), events[n]);
    }
  }

  lemma {:induction false} TextIsKept(events: seq<Event>)
    ensures ExpandAll(Flushed(After(events))) == ExpandAll(Kept(events))
    decreases |events|
  {
    if events != [] {
      var n := |events| - 1;
      var s, kept, e := After(events[..n]), Kept(events[..n]), events[n];
      TextIsKept(events[..n]);
      ShapeHolds(events[..n]);
      RepeatsIsRedundant(s, kept, e);
      NextExpands(s, e);
      ExpandNext(kept, e);
    }
  }

  lemma {:induction false} EntriesStaySeparate(events: seq<Event>)
    ensures Separate(Flushed(After(events)))
    decreases |events|
  {
    if events != [] {
      var n := |events| - 1;
      EntriesStaySeparate(events[..n]);
      ShapeHolds(events[..n]);
      NextStaysSeparate(After(events[..n]), Kept(events[..n]), events[n]);
    }
  }

  // ---- The output as merged runs ----

  /** Maximal runs of token events of one type; every other event stands alone. */
  function Runs(kept: seq<Event>): (runs: seq<seq<Event>>)
    ensures kept == [] <==> runs == []
    ensures forall i :: 0 <= i < |runs| ==> runs[i] != []
  {
    if kept == [] then []
    else
      var runs, e := Runs(kept[..|kept| - 1]), kept[|kept| - 1];
      if runs != [] && IsToken(e) && runs[|runs| - 1][0].kind == e.kind
      then runs[..|runs| - 1] + [runs[|runs| - 1] + [e]]
      else runs + [[e]]
  }

  function Texts(run: seq<Event>): string {
    if run == [] then "" else Texts(run[..|run| - 1]) + TextOf(run[|run| - 1])
  }

  /** A run as one entry: the fields of its first event, and for tokens the text of all. */
  function Merged(run: seq<Event>): Event
    requires run != []
  {
    if IsToken(run[0]) then Normal(run[0]).(text := Some(Texts(run))) else Normal(run[0])
  }

  function MergedAll(runs: seq<seq<Event>>): (entries: seq<Event>)
    requires forall i :: 0 <= i < |runs| ==> runs[i] != []
    ensures |entries| == |runs|
  {
    if runs == [] then [] else MergedAll(runs[..|runs| - 1]) + [Merged(runs[|runs| - 1])]
  }

  lemma MergedAllNext(runs: seq<seq<Event>>, run: seq<Event>)
    requires run != [] && forall i :: 0 <= i < |runs| ==> runs[i] != []
    ensures MergedAll(runs + [run]) == MergedAll(runs) + [Merged(run)]
  {
    assert (runs + [run])[..|runs|] == runs;
  }

  lemma OneText(e: Event)
    ensures Texts([e]) == TextOf(e)
  {
    assert [e][..0] == [];
  }

  lemma MergedLonger(run: seq<Event>, e: Event)
    requires run != [] && IsToken(run[0])
    ensures Merged(run + [e]) == Merged(run).(text := Some(TextOf(Merged(run)) + TextOf(e)))
  {
    assert (run + [e])[..|run|] == run;
  }

  /** The block that is growing is the last run, merged. */
  ghost predicate Merging(s: State, runs: seq<seq<Event>>)
    requires forall i :: 0 <= i < |runs| ==> runs[i] != []
  {
    && Flushed(s) == MergedAll(runs)
    && (s.block.Some? <==> runs != [] && IsToken(runs[|runs| - 1][0]))
  }

  lemma NextMerges(s: State, kept: seq<Event>, e: Event)
    requires Merging(s, Runs(kept)) && !Repeats(s.entries, e)
    ensures Merging(Next(s, e), Runs(kept + [e]))
  {
    var runs := Runs(kept);
    assert (kept + [e])[..|kept|] == kept;
    if s.block.Some? { BlockIsLastRun(s, runs); }
    if Continues(s.block, e) {
      RunContinues(s, runs, e);
    } else {
      RunBegins(s, runs, e);
    }
  }

  lemma RunContinues(s: State, runs: seq<seq<Event>>, e: Event)
    requires forall i :: 0 <= i < |runs| ==> runs[i] != []
    requires Merging(s, runs) && Continues(s.block, e)
    ensures var last := |runs| - 1; Merging(Next(s, e), runs[..last] + [runs[last] + [e]])
  {
    BlockIsLastRun(s, runs);
    var last := runs[|runs| - 1];
    MergedLonger(last, e);
    MergedAllNext(runs[..|runs| - 1], last + [e]);
  }

  lemma RunBegins(s: State, runs: seq<seq<Event>>, e: Event)
    requires forall i :: 0 <= i < |runs| ==> runs[i] != []
    requires Merging(s, runs) && !Continues(s.block, e) && !Repeats(s.entries, e)
    ensures Merging(Next(s, e), runs + [[e]])
  {
    OneText(e);
    MergedAllNext(runs, [e]);
  }

  lemma BlockIsLastRun(s: State, runs: seq<seq<Event>>)
    requires forall i :: 0 <= i < |runs| ==> runs[i] != []
    requires Merging(s, runs) && s.block.Some?
    ensures s.entries == MergedAll(runs[..|runs| - 1]) && s.block == Some(Merged(runs[|runs| - 1]))
    ensures s.block.value.kind == runs[|runs| - 1][0].kind
  {
    var flushed := Flushed(s);
    assert flushed[..|flushed| - 1] == s.entries && flushed[|flushed| - 1] == s.block.value;
  }

  /** The output is exactly the kept events with every maximal run of tokens of one type merged into one
      entry. */
  lemma {:induction false} OutputIsTheMergedRuns(events: seq<Event>)
    ensures Flushed(After(events)) == MergedAll(Runs(Kept(events)))
    ensures Merging(After(events), Runs(Kept(events)))
    decreases |events|
  {
    if events != [] {
      var n := |events| - 1;
      OutputIsTheMergedRuns(events[..n]);
      ShapeHolds(events[..n]);
      RepeatsIsRedundant(After(events[..n]), Kept(events[..n]), events[n]);
      if !Repeats(After(events[..n]).entries, events[n]) {
        NextMerges(After(events[..n]), Kept(events[..n]), events[n]);
      }
    }
  }

  /** Expanded, the output is the expanded input without the redundant tool events: no character of a
      token, no other event and no order is lost; and the blocks are as long as they can be. */
  lemma CompressionIsLossless(events: seq<Event>)
    ensures ExpandAll(Flushed(After(events))) == ExpandAll(Kept(events))
    ensures Separate(Flushed(After(events)))
  {
    TextIsKept(events);
    EntriesStaySeparate(events);
  }

  /** Only tool events are ever dropped. */
  lemma {:induction false} OnlyToolEventsAreDropped(events: seq<Event>)
    requires forall i :: 0 <= i < |events| ==> !IsTool(events[i])
    ensures Kept(events) == events
    decreases |events|
  {
    if events != [] { OnlyToolEventsAreDropped(events[..|events| - 1]); }
  }

  lemma {:induction false} MergedAt(runs: seq<seq<Event>>, k: nat)
    requires k < |runs| && forall i :: 0 <= i < |runs| ==> runs[i] != []
    ensures MergedAll(runs)[k] == Merged(runs[k])
    decreases |runs|
  {
    var n := |runs| - 1;
    if k < n { MergedAt(runs[..n], k); }
  }

  /** Field by field, each entry of the output is the first event of its run, without a name that only repeats
      the type; the text of tokens is that of the whole run. */
  lemma OutputFields(events: seq<Event>, k: nat)
    requires k < |Runs(Kept(events))|
    ensures k < |Flushed(After(events))|
    ensures var (run, out) := (Runs(Kept(events))[k], Flushed(After(events))[k]);
            && out.kind == run[0].kind && out.rest == run[0].rest
            && out.name == (if run[0].name == run[0].kind then None else run[0].name)
            && out.text == if IsToken(run[0]) then Some(Texts(run)) else run[0].text
  {
    OutputIsTheMergedRuns(events);
    MergedAt(Runs(Kept(events)), k);
  }

  lemma KeptNext(events: seq<Event>, e: Event)
    ensures Kept(events + [e]) == if Redundant(Kept(events), e) then Kept(events) else Kept(events) + [e]
  {
    assert (events + [e])[..|events|] == events;
  }

  /** What `e` must be to repeat `d`: its type, and its name, where a name that only repeats the type counts
      as none in `d`. */
  ghost predicate Repetition(d: Event, e: Event) {
    e.kind == d.kind && e.name == if d.name == d.kind then None else d.name
  }

  lemma RedundantAfterEvent(kept: seq<Event>, d: Event, e: Event)
    requires IsTool(e) && !IsToken(d)
    ensures Redundant(kept + [d], e) <==> Repetition(d, e)
  {
    assert BeforeRun(kept + [d]) == kept + [d];
  }

  lemma RedundantAfterToken(kept: seq<Event>, d: Event, token: Event, e: Event)
    requires IsTool(e) && IsToken(token) && !IsToken(d)
    ensures Redundant(kept + [d] + [token], e) <==> Repetition(d, e)
  {
    var first := kept + [d];
    assert (first + [token])[..|first|] == first;
    assert BeforeTokens(first, token.kind) == first;
    assert BeforeRun(first + [token]) == first;
  }

  /** A tool event is dropped exactly when it repeats the event before it, whatever came before that one. */
  lemma RepetitionGoesExactly(events: seq<Event>, d: Event, e: Event)
    requires IsTool(e) && !IsToken(d) && Kept(events + [d]) == Kept(events) + [d]
    ensures Kept(events + [d] + [e]) == Kept(events + [d]) <==> Repetition(d, e)
  {
    KeptNext(events + [d], e);
    RedundantAfterEvent(Kept(events), d, e);
  }

  /** A token between the two makes no difference. */
  lemma TokenBetweenDoesNotMatter(events: seq<Event>, d: Event, token: Event, e: Event)
    requires IsTool(e) && IsToken(token) && !IsToken(d) && Kept(events + [d]) == Kept(events) + [d]
    ensures Kept(events + [d] + [token] + [e]) == Kept(events + [d] + [token]) <==> Repetition(d, e)
  {
    KeptNext(events + [d], token);
    KeptNext(events + [d] + [token], e);
    RedundantAfterToken(Kept(events), d, token, e);
  }

  /** The first event is never dropped. */
  lemma FirstEventStays(e: Event)
    ensures Kept([e]) == [e]
  {
    KeptNext([], e);
    assert [] + [e] == [e];
  }
}
