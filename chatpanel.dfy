/**
 * The chat panel of the editor extension (claude-vscode-extension,
 * dist/opusChatPanel.js): the daily token counters, the framing of the
 * server-sent event stream and the token accounting it drives, and the
 * prompt the panel builds for each request mode.
 *
 * JSON decoding of an event is outside the model: a `data:` payload
 * reaches it already decoded, through the `decode` function the caller
 * supplies. The clock gives today's date as a string, also supplied.
 */
module ChatPanel {
  import opened Wrappers
  import opened Text

  // ---------------------------------------------------------------------
  // Token counters
  // ---------------------------------------------------------------------

  /** `_tokenState`, as stored in the token-state file. */
  datatype TokenState = TokenState(
    date: string,
    lastReplyTokens: int,
    totalOutboundTokens: int,
    totalInboundTokens: int,
    grandTotalTokens: int)

  /** The counters of a fresh day: all zero. */
  function FreshState(today: string): (s: TokenState)
    ensures s.date == today && s.lastReplyTokens == 0
    ensures s.totalOutboundTokens == 0 && s.totalInboundTokens == 0 && s.grandTotalTokens == 0
  {
    TokenState(today, 0, 0, 0, 0)
  }

  /** The grand total is the sum of the outbound and inbound totals. */
  predicate GrandTotalAdds(s: TokenState)
  {
    s.grandTotalTokens == s.totalOutboundTokens + s.totalInboundTokens
  }

  /**
   * `loadTokenState`: the stored counters when they are today's; a fresh,
   * all-zero state for today when they are from another day, or when
   * there is no readable file (`stored` is `None`).
   */
  function LoadTokenState(stored: Option<TokenState>, today: string): (s: TokenState)
    ensures s.date == today
    ensures stored.Some? && stored.value.date == today ==> s == stored.value
    ensures stored.None? || stored.value.date != today ==> s == FreshState(today)
  {
    if stored.Some? && stored.value.date == today then stored.value else FreshState(today)
  }

  // ---------------------------------------------------------------------
  // Stream events
  // ---------------------------------------------------------------------

  /**
   * A decoded `data:` payload. `MessageStart` carries the usage's
   * `input_tokens || 0`, or `None` without a usage; `MessageDelta` carries
   * `usage.output_tokens`, 0 when it is missing; `Ignored` is any other
   * event, and a payload that is not JSON (whose error is swallowed).
   */
  datatype Event =
    | TextDelta(text: string)
    | MessageStart(inputTokens: Option<int>)
    | MessageDelta(outputTokens: int)
    | MessageStop
    | Ignored

  /**
   * What one reply stream updates: the panel's counters, the reply's own
   * output-token tracker, the stitched reply texts by prompt id, and the
   * counters last written to the token-state file.
   */
  datatype StreamState = StreamState(
    tokens: TokenState,
    replyOutputTokens: int,
    replies: map<string, string>,
    saved: Option<TokenState>)

  /** The effect of one event on a stream of prompt `promptId`. */
  function ApplyEvent(st: StreamState, promptId: Option<string>, ev: Event): StreamState
  {
    match ev
    case TextDelta(text) =>
      if text != "" && promptId.Some? then
        var id := promptId.value;
        var sofar := if id in st.replies then st.replies[id] else "";
        st.(replies := st.replies[id := sofar + text])
      else st
    case MessageStart(input) =>
      if input.Some? then
        st.(tokens := st.tokens.(totalOutboundTokens := st.tokens.totalOutboundTokens + input.value,
                                 grandTotalTokens := st.tokens.grandTotalTokens + input.value))
      else st
    case MessageDelta(output) =>
      if output != 0 then
        var increase := output - st.replyOutputTokens;
        st.(replyOutputTokens := output,
            tokens := st.tokens.(totalInboundTokens := st.tokens.totalInboundTokens + increase,
                                 grandTotalTokens := st.tokens.grandTotalTokens + increase))
      else st
    case MessageStop =>
      var finished := st.tokens.(lastReplyTokens := st.replyOutputTokens);
      st.(tokens := finished, saved := Some(finished))
    case Ignored => st
  }

  /** The events of a sequence, in order. */
  function ApplyEvents(st: StreamState, promptId: Option<string>, evs: seq<Event>): StreamState
    decreases |evs|
  {
    if evs == [] then st else ApplyEvents(ApplyEvent(st, promptId, evs[0]), promptId, evs[1..])
  }

  /**
   * Every event keeps the grand total equal to outbound plus inbound, and
   * keeps the inbound total minus the reply's tracker fixed: a reply's
   * `message_delta` usages add up to its last reported output count.
   */
  lemma EventKeepsTotals(st: StreamState, promptId: Option<string>, ev: Event)
    ensures var r := ApplyEvent(st, promptId, ev);
            (GrandTotalAdds(st.tokens) ==> GrandTotalAdds(r.tokens))
            && r.tokens.totalInboundTokens - r.replyOutputTokens == st.tokens.totalInboundTokens - st.replyOutputTokens
            && r.tokens.date == st.tokens.date
  {
  }

  lemma {:induction false} EventsKeepTotals(st: StreamState, promptId: Option<string>, evs: seq<Event>)
    ensures var r := ApplyEvents(st, promptId, evs);
            (GrandTotalAdds(st.tokens) ==> GrandTotalAdds(r.tokens))
            && r.tokens.totalInboundTokens - r.replyOutputTokens == st.tokens.totalInboundTokens - st.replyOutputTokens
            && r.tokens.date == st.tokens.date
    decreases |evs|
  {
    if evs != [] {
      EventKeepsTotals(st, promptId, evs[0]);
      EventsKeepTotals(ApplyEvent(st, promptId, evs[0]), promptId, evs[1..]);
    }
  }

  lemma {:induction false} ApplyEventsAppend(st: StreamState, promptId: Option<string>, a: seq<Event>, b: seq<Event>)
    ensures ApplyEvents(st, promptId, a + b) == ApplyEvents(ApplyEvents(st, promptId, a), promptId, b)
    decreases |a|
  {
    if a == [] {
      assert a + b == b;
    } else {
      assert (a + b)[1..] == a[1..] + b;
      ApplyEventsAppend(ApplyEvent(st, promptId, a[0]), promptId, a[1..], b);
    }
  }

  // ---------------------------------------------------------------------
  // Framing
  // ---------------------------------------------------------------------

  /** The blank line that ends each server-sent event. */
  const Boundary: string := "\n\n"

  /** The prefix of the lines that carry a payload. */
  const DataPrefix: string := "data: "

  /** `buffer.indexOf('\n\n')`: where the first blank line starts, if there is one. */
  function BoundaryIndex(s: string): (r: Option<nat>)
    ensures r.Some? ==> OccursAt(s, Boundary, r.value)
    ensures r.Some? ==> forall j :: 0 <= j < r.value ==> !OccursAt(s, Boundary, j)
    ensures r.None? ==> forall j :: 0 <= j < |s| ==> !OccursAt(s, Boundary, j)
  {
    if |s| < 2 then None
    else if s[0] == '\n' && s[1] == '\n' then Some(0)
    else
      var rest := BoundaryIndex(s[1..]);
      assert forall j :: 1 <= j < |s| ==> (OccursAt(s, Boundary, j) <==> OccursAt(s[1..], Boundary, j - 1));
      if rest.Some? then Some(rest.value + 1) else None
  }

  /** `s` followed by the boundary, for each frame, joined. */
  function Glue(frames: seq<string>): string
  {
    if frames == [] then "" else frames[0] + Boundary + Glue(frames[1..])
  }

  /**
   * The frames a buffer splits into, cutting at each blank line and
   * dropping it, and what is left after the last one.
   */
  function Frames(s: string): (r: (seq<string>, string))
    ensures Glue(r.0) + r.1 == s
    ensures BoundaryIndex(r.1).None?
    decreases |s|
  {
    match BoundaryIndex(s)
    case None => ([], s)
    case Some(b) =>
      var after := Frames(s[b + 2..]);
      GlueFrame(s, b, after.0, after.1);
      ([s[..b]] + after.0, after.1)
  }

  /** Glueing the frame before a boundary to the frames after it gives the whole buffer back. */
  lemma GlueFrame(s: string, b: nat, frames: seq<string>, rest: string)
    requires OccursAt(s, Boundary, b) && Glue(frames) + rest == s[b + 2..]
    ensures Glue([s[..b]] + frames) + rest == s
  {
    var fs := [s[..b]] + frames;
    assert fs[1..] == frames;
    GlueCons(fs, rest);
    assert s == s[..b] + Boundary + s[b + 2..] by {
      assert s[b..b + 2] == Boundary;
    }
  }

  /**
   * A frame holds no blank line, even with the newline that follows it:
   * it cannot end with a newline of its own.
   */
  predicate Unbroken(frame: string)
  {
    !Includes(frame + "\n", Boundary)
  }

  lemma FrameIsUnbroken(s: string, b: nat)
    requires BoundaryIndex(s) == Some(b)
    ensures Unbroken(s[..b])
  {
    var f := s[..b] + "\n";
    assert s[b] == '\n' by { assert s[b..b + 2] == Boundary; }
    forall j | 0 <= j <= |f| - 2
      ensures !OccursAt(f, Boundary, j)
    {
      assert f[j] == s[j] && f[j + 1] == s[j + 1];
      assert !OccursAt(s, Boundary, j);
      assert s[j..j + 2] != Boundary;
    }
  }

  /** Every frame a buffer splits into is unbroken. */
  lemma {:induction false} FramesAreUnbroken(s: string)
    ensures forall k :: 0 <= k < |Frames(s).0| ==> Unbroken(Frames(s).0[k])
    decreases |s|
  {
    match BoundaryIndex(s)
    case None =>
    case Some(b) =>
      FramesStep(s, b);
      FrameIsUnbroken(s, b);
      FramesAreUnbroken(s[b + 2..]);
  }

  /** Splitting glued frames and a tail gives those frames back, then the tail's own frames. */
  lemma {:induction false} FramesAfterGlue(frames: seq<string>, t: string)
    requires forall k :: 0 <= k < |frames| ==> Unbroken(frames[k])
    ensures Frames(Glue(frames) + t) == (frames + Frames(t).0, Frames(t).1)
    decreases |frames|
  {
    if frames == [] {
      assert Glue(frames) + t == t;
      assert frames + Frames(t).0 == Frames(t).0;
    } else {
      FramesAfterGlue(frames[1..], t);
      GlueStep(frames, t);
    }
  }

  lemma GlueStep(frames: seq<string>, t: string)
    requires frames != [] && Unbroken(frames[0])
    requires Frames(Glue(frames[1..]) + t) == (frames[1..] + Frames(t).0, Frames(t).1)
    ensures Frames(Glue(frames) + t) == (frames + Frames(t).0, Frames(t).1)
  {
    var f, more := frames[0], frames[1..];
    var rest := Glue(more) + t;
    var tail := Frames(t);
    GlueCons(frames, t);
    GlueHead(f, rest);
    HeadThenTail(frames, tail.0);
    calc {
      Frames(Glue(frames) + t);
      Frames(f + Boundary + rest);
      ([f] + Frames(rest).0, Frames(rest).1);
      ([f] + (more + tail.0), tail.1);
      (frames + tail.0, tail.1);
    }
  }

  lemma GlueCons(frames: seq<string>, t: string)
    requires frames != []
    ensures Glue(frames) + t == frames[0] + Boundary + (Glue(frames[1..]) + t)
  {
    assert Glue(frames) == frames[0] + Boundary + Glue(frames[1..]);
  }

  lemma HeadThenTail<T>(xs: seq<T>, ys: seq<T>)
    requires xs != []
    ensures [xs[0]] + (xs[1..] + ys) == xs + ys
  {
    assert xs == [xs[0]] + xs[1..];
  }

  lemma GlueHead(f: string, t: string)
    requires Unbroken(f)
    ensures Frames(f + Boundary + t) == ([f] + Frames(t).0, Frames(t).1)
  {
    var s := f + Boundary + t;
    FirstBoundaryAfter(f, t);
    assert s[|f| + 2..] == t;
    assert s[..|f|] == f;
    FramesStep(s, |f|);
  }

  /** Framing is lossless: gluing frames back with a tail that holds no blank line and framing again gives the same frames and tail. */
  lemma FramesOfGlue(frames: seq<string>, rest: string)
    requires forall k :: 0 <= k < |frames| ==> Unbroken(frames[k])
    requires BoundaryIndex(rest).None?
    ensures Frames(Glue(frames) + rest) == (frames, rest)
  {
    FramesAfterGlue(frames, rest);
    assert frames + [] == frames;
  }

  /**
   * The decoded text may arrive in chunks cut between any two characters:
   * framing the first chunk, then what it left buffered with the second,
   * gives the frames (and the leftover) of both chunks received at once.
   */
  lemma ChunksFrameAsOne(a: string, b: string)
    ensures var first := Frames(a);
            var second := Frames(first.1 + b);
            first.0 + second.0 == Frames(a + b).0 && second.1 == Frames(a + b).1
  {
    var first := Frames(a);
    FramesAreUnbroken(a);
    assert a + b == Glue(first.0) + (first.1 + b);
    FramesAfterGlue(first.0, first.1 + b);
  }

  /** An unbroken frame followed by a blank line ends at the first boundary. */
  lemma FirstBoundaryAfter(f: string, t: string)
    requires Unbroken(f)
    ensures BoundaryIndex(f + Boundary + t) == Some(|f|)
  {
    var s := f + Boundary + t;
    assert OccursAt(s, Boundary, |f|);
    forall j | 0 <= j < |f|
      ensures !OccursAt(s, Boundary, j)
    {
      assert !OccursAt(f + "\n", Boundary, j);
      assert (f + "\n")[j..j + 2] == s[j..j + 2];
    }
  }

  /** Where the buffer holds a blank line, its frames are the one before it and the frames after it. */
  lemma FramesStep(s: string, b: nat)
    requires BoundaryIndex(s) == Some(b)
    ensures Frames(s) == ([s[..b]] + Frames(s[b + 2..]).0, Frames(s[b + 2..]).1)
  {
  }

  /** Taking the first frame off the buffer keeps the loop's account of the frames. */
  lemma ConsumeFrame(all: string, done: seq<string>, buffer: string, b: nat)
    requires Frames(all).0 == done + Frames(buffer).0 && Frames(all).1 == Frames(buffer).1
    requires BoundaryIndex(buffer) == Some(b)
    ensures Frames(all).0 == (done + [buffer[..b]]) + Frames(buffer[b + 2..]).0
    ensures Frames(all).1 == Frames(buffer[b + 2..]).1
  {
    FramesStep(buffer, b);
    assert done + ([buffer[..b]] + Frames(buffer[b + 2..]).0) == (done + [buffer[..b]]) + Frames(buffer[b + 2..]).0;
  }

  /** ... and of the events it has handled. */
  lemma {:induction false} HandleFrame(start: StreamState, promptId: Option<string>, done: seq<string>, frame: string, decode: string -> Event)
    ensures ApplyEvents(start, promptId, FrameEvents(done + [frame], decode))
            == ApplyEvents(ApplyEvents(start, promptId, FrameEvents(done, decode)), promptId,
                           Decoded(Payloads(Split(frame, '\n')), decode))
  {
    FrameEventsAppend(done, frame, decode);
    ApplyEventsAppend(start, promptId, FrameEvents(done, decode), Decoded(Payloads(Split(frame, '\n')), decode));
  }

  /** The payloads of a frame: the text after `data: ` on each of its lines that starts so, in order. */
  function Payloads(lines: seq<string>): (ps: seq<string>)
    ensures |ps| <= |lines|
  {
    if lines == [] then []
    else (if StartsWith(lines[0], DataPrefix) then [lines[0][|DataPrefix|..]] else []) + Payloads(lines[1..])
  }

  /** The decoded events of a sequence of frames. */
  function FrameEvents(frames: seq<string>, decode: string -> Event): seq<Event>
  {
    if frames == [] then []
    else Decoded(Payloads(Split(frames[0], '\n')), decode) + FrameEvents(frames[1..], decode)
  }

  function Decoded(payloads: seq<string>, decode: string -> Event): (evs: seq<Event>)
    ensures |evs| == |payloads|
    ensures forall i :: 0 <= i < |payloads| ==> evs[i] == decode(payloads[i])
  {
    seq(|payloads|, i requires 0 <= i < |payloads| => decode(payloads[i]))
  }

  lemma {:induction false} FrameEventsAppend(a: seq<string>, f: string, decode: string -> Event)
    ensures FrameEvents(a + [f], decode) == FrameEvents(a, decode) + Decoded(Payloads(Split(f, '\n')), decode)
    decreases |a|
  {
    if a == [] {
      assert FrameEvents([f][1..], decode) == [];
    } else {
      assert (a + [f])[1..] == a[1..] + [f];
      FrameEventsAppend(a[1..], f, decode);
    }
  }

  lemma {:induction false} FrameEventsConcat(a: seq<string>, b: seq<string>, decode: string -> Event)
    ensures FrameEvents(a + b, decode) == FrameEvents(a, decode) + FrameEvents(b, decode)
    decreases |a|
  {
    if a == [] {
      assert a + b == b;
    } else {
      assert (a + b)[1..] == a[1..] + b;
      FrameEventsConcat(a[1..], b, decode);
    }
  }

  /**
   * Where the decoded text is cut into chunks, between two characters,
   * does not matter: handling the frames of a first chunk, then those of
   * the leftover and a second chunk, reaches the state that both chunks
   * at once reach. (A cut inside a multi-byte character is not covered:
   * the chunks here are already decoded.)
   */
  lemma ChunksActAsOne(st: StreamState, promptId: Option<string>, a: string, b: string, decode: string -> Event)
    ensures var first := Frames(a);
            var second := Frames(first.1 + b);
            ApplyEvents(ApplyEvents(st, promptId, FrameEvents(first.0, decode)), promptId, FrameEvents(second.0, decode))
              == ApplyEvents(st, promptId, FrameEvents(Frames(a + b).0, decode))
  {
    var first := Frames(a);
    var second := Frames(first.1 + b);
    ChunksFrameAsOne(a, b);
    FrameEventsConcat(first.0, second.0, decode);
    ApplyEventsAppend(st, promptId, FrameEvents(first.0, decode), FrameEvents(second.0, decode));
  }

  // ---------------------------------------------------------------------
  // The panel and its reply streams
  // ---------------------------------------------------------------------

  /** The request modes of the panel. */
  datatype Mode = SendAll | Chat | ChatWithFiles | Continue | OtherMode(name: string)

  /** The panel's state that outlives one request. */
  class OpusChatPanel {
    var tokenState: TokenState
    /** `_stitchedReplies`: the reply text stitched so far, by prompt id. */
    var stitchedReplies: map<string, string>
    var lastPromptId: Option<string>
    /** What `saveTokenState` last wrote, if it was called. */
    var savedTokenState: Option<TokenState>

    /** The constructor: the counters come from `loadTokenState`; no prompt has been sent. */
    constructor(stored: Option<TokenState>, today: string)
      ensures tokenState == LoadTokenState(stored, today)
      ensures stitchedReplies == map[] && lastPromptId == None && savedTokenState == None
    {
      tokenState := LoadTokenState(stored, today);
      stitchedReplies := map[];
      lastPromptId := None;
      savedTokenState := None;
    }

    /** `resetTokenCounts`: every counter back to zero, dated today, and saved. */
    method ResetTokenCounts(today: string)
      modifies this
      ensures tokenState == FreshState(today) && savedTokenState == Some(FreshState(today))
      ensures GrandTotalAdds(tokenState)
      ensures stitchedReplies == old(stitchedReplies) && lastPromptId == old(lastPromptId)
    {
      tokenState := FreshState(today);
      savedTokenState := Some(tokenState);
    }

    /**
     * The bookkeeping of `handleSendToOpus` before the request goes out:
     * without an API key nothing starts; a new (not `continue`) prompt
     * gets the id `prompt_<now>`; the prompt's stitched reply is emptied;
     * the reply stream starts with an empty buffer and no output tokens.
     */
    method StartReply(mode: Mode, hasApiKey: bool, now: nat) returns (stream: ReplyStream?)
      modifies this
      ensures !hasApiKey ==> stream == null && lastPromptId == old(lastPromptId) && stitchedReplies == old(stitchedReplies)
      ensures hasApiKey ==> lastPromptId == (if mode != Continue then Some("prompt_" + NatToString(now)) else old(lastPromptId))
      ensures hasApiKey ==> stitchedReplies == (if lastPromptId.Some? then old(stitchedReplies)[lastPromptId.value := ""] else old(stitchedReplies))
      ensures hasApiKey ==> stream != null && fresh(stream) && stream.panel == this && stream.promptId == lastPromptId
                            && stream.buffer == "" && stream.currentReplyOutputTokens == 0
      ensures tokenState == old(tokenState) && savedTokenState == old(savedTokenState)
    {
      if !hasApiKey {
        return null;
      }
      if mode != Continue {
        lastPromptId := Some("prompt_" + NatToString(now));
      }
      if lastPromptId.Some? {
        stitchedReplies := stitchedReplies[lastPromptId.value := ""];
      }
      stream := new ReplyStream(this, lastPromptId);
    }
  }

  /** One request's stream: its buffer of unframed text and its output-token tracker. */
  class ReplyStream {
    const panel: OpusChatPanel
    const promptId: Option<string>
    var buffer: string
    var currentReplyOutputTokens: int

    constructor(panel: OpusChatPanel, promptId: Option<string>)
      ensures this.panel == panel && this.promptId == promptId
      ensures buffer == "" && currentReplyOutputTokens == 0
    {
      this.panel := panel;
      this.promptId := promptId;
      buffer := "";
      currentReplyOutputTokens := 0;
    }

    /** What the stream's events act on. */
    function State(): StreamState
      reads this`currentReplyOutputTokens, panel
    {
      StreamState(panel.tokenState, currentReplyOutputTokens, panel.stitchedReplies, panel.savedTokenState)
    }

    /**
     * The `data` handler: append the chunk (here already decoded text,
     * where the source decodes each byte chunk), then while the buffer holds a
     * blank line, take the frame before it off the buffer and handle each
     * of its `data: ` lines. What stays buffered is the text after the
     * last blank line, and the state has seen every complete frame's
     * events in order.
     */
    method OnData(chunk: string, decode: string -> Event)
      modifies this, panel
      ensures var framed := Frames(old(buffer) + chunk);
              buffer == framed.1
              && State() == ApplyEvents(old(State()), promptId, FrameEvents(framed.0, decode))
      ensures panel.lastPromptId == old(panel.lastPromptId)
    {
      buffer := buffer + chunk;
      ghost var all := buffer;
      ghost var start := State();
      ghost var done: seq<string> := [];
      while BoundaryIndex(buffer).Some?
        invariant Frames(all).0 == done + Frames(buffer).0 && Frames(all).1 == Frames(buffer).1
        invariant State() == ApplyEvents(start, promptId, FrameEvents(done, decode))
        invariant panel.lastPromptId == old(panel.lastPromptId)
        decreases |buffer|
      {
        var boundary := BoundaryIndex(buffer).value;
        var rawMessage := buffer[..boundary];
        ConsumeFrame(all, done, buffer, boundary);
        HandleFrame(start, promptId, done, rawMessage, decode);
        buffer := buffer[boundary + 2..];
        done := done + [rawMessage];
        HandleMessage(rawMessage, decode);
      }
      assert done == Frames(all).0;
    }

    /** Handle each line of one frame that starts with `data: `. */
    method HandleMessage(rawMessage: string, decode: string -> Event)
      modifies this, panel
      ensures State() == ApplyEvents(old(State()), promptId, Decoded(Payloads(Split(rawMessage, '\n')), decode))
      ensures buffer == old(buffer) && panel.lastPromptId == old(panel.lastPromptId)
    {
      var lines := Split(rawMessage, '\n');
      var i := 0;
      while i < |lines|
        invariant 0 <= i <= |lines|
        invariant State() == ApplyEvents(old(State()), promptId, Decoded(Payloads(lines[..i]), decode))
        invariant buffer == old(buffer) && panel.lastPromptId == old(panel.lastPromptId)
      {
        var line := lines[i];
        LineStep(old(State()), promptId, lines, i, decode);
        if StartsWith(line, DataPrefix) {
          var ev := decode(line[|DataPrefix|..]);
          HandleEvent(ev);
        }
        i := i + 1;
      }
      assert lines[..|lines|] == lines;
    }

    /** One decoded event. */
    method HandleEvent(ev: Event)
      modifies this, panel
      ensures State() == ApplyEvent(old(State()), promptId, ev)
      ensures buffer == old(buffer) && panel.lastPromptId == old(panel.lastPromptId)
    {
      match ev {
        case TextDelta(text) =>
          if text != "" && promptId.Some? {
            var id := promptId.value;
            var currentReply := if id in panel.stitchedReplies then panel.stitchedReplies[id] else "";
            panel.stitchedReplies := panel.stitchedReplies[id := currentReply + text];
          }
        case MessageStart(input) =>
          if input.Some? {
            panel.tokenState := panel.tokenState.(
              totalOutboundTokens := panel.tokenState.totalOutboundTokens + input.value,
              grandTotalTokens := panel.tokenState.grandTotalTokens + input.value);
          }
        case MessageDelta(output) =>
          if output != 0 {
            var increase := output - currentReplyOutputTokens;
            currentReplyOutputTokens := output;
            panel.tokenState := panel.tokenState.(
              totalInboundTokens := panel.tokenState.totalInboundTokens + increase,
              grandTotalTokens := panel.tokenState.grandTotalTokens + increase);
          }
        case MessageStop =>
          panel.tokenState := panel.tokenState.(lastReplyTokens := currentReplyOutputTokens);
          panel.savedTokenState := Some(panel.tokenState);
        case Ignored =>
      }
    }
  }

  lemma {:induction false} PayloadsAppend(lines: seq<string>, line: string)
    ensures Payloads(lines + [line])
            == Payloads(lines) + (if StartsWith(line, DataPrefix) then [line[|DataPrefix|..]] else [])
    decreases |lines|
  {
    if lines == [] {
      assert Payloads([line][1..]) == [];
    } else {
      assert (lines + [line])[1..] == lines[1..] + [line];
      PayloadsAppend(lines[1..], line);
    }
  }

  /** One more line of a frame applies its event when it carries a payload, and nothing otherwise. */
  lemma LineStep(st: StreamState, promptId: Option<string>, lines: seq<string>, i: nat, decode: string -> Event)
    requires i < |lines|
    ensures var before := ApplyEvents(st, promptId, Decoded(Payloads(lines[..i]), decode));
            var after := ApplyEvents(st, promptId, Decoded(Payloads(lines[..i + 1]), decode));
            (StartsWith(lines[i], DataPrefix) ==> after == ApplyEvent(before, promptId, decode(lines[i][|DataPrefix|..])))
            && (!StartsWith(lines[i], DataPrefix) ==> after == before)
  {
    var line := lines[i];
    PayloadsAppend(lines[..i], line);
    assert lines[..i + 1] == lines[..i] + [line];
    if StartsWith(line, DataPrefix) {
      var ev := decode(line[|DataPrefix|..]);
      var before := ApplyEvents(st, promptId, Decoded(Payloads(lines[..i]), decode));
      DecodedAppend(Payloads(lines[..i]), line[|DataPrefix|..], decode);
      ApplyEventsAppend(st, promptId, Decoded(Payloads(lines[..i]), decode), [ev]);
      assert ApplyEvents(before, promptId, [ev]) == ApplyEvent(before, promptId, ev) by {
        assert [ev][1..] == [];
      }
    } else {
      assert Payloads(lines[..i + 1]) == Payloads(lines[..i]);
    }
  }

  lemma DecodedAppend(ps: seq<string>, p: string, decode: string -> Event)
    ensures Decoded(ps + [p], decode) == Decoded(ps, decode) + [decode(p)]
  {
  }

  // ---------------------------------------------------------------------
  // The prompt
  // ---------------------------------------------------------------------

  /** `parts.join(sep)`. */
  function JoinWith(parts: seq<string>, sep: string): string
  {
    if parts == [] then "" else if |parts| == 1 then parts[0] else parts[0] + sep + JoinWith(parts[1..], sep)
  }

  /**
   * `s.slice(-n)` for `n > 0`: the last `n` characters, or all of a shorter
   * string (characters here, where JavaScript counts UTF-16 code units).
   */
  function LastChars(s: string, n: nat): (t: string)
    ensures |t| == if |s| < n then |s| else n
    ensures s == s[..|s| - |t|] + t
  {
    if |s| < n then s else s[|s| - n..]
  }

  /** An attached file. */
  datatype File = File(name: string, content: string)

  /** A file as a fenced block under its name. */
  function FilePart(f: File): string
  {
    "--- FILE: " + f.name + " ---\n\n```\n" + f.content + "\n```"
  }

  /** The `continue` prompt around the tail of the last reply. */
  function ContinueText(lastReply: string): string
  {
    "The previous response ended with:\n..." + LastChars(lastReply, 300)
      + "\n\nPlease continue from where you left off, without repeating the provided text."
  }

  /** A labelled part, when its text is not empty (JavaScript treats `''` as false). */
  function Labelled(tag: string, text: string): (ps: seq<string>)
    ensures text == "" ==> ps == []
    ensures text != "" ==> ps == [tag + text]
  {
    if text == "" then [] else [tag + text]
  }

  /** One for a text that is not empty, zero for the empty one. */
  function Filled(text: string): nat
  {
    if text == "" then 0 else 1
  }

  /**
   * The text parts of a prompt: for `sendAll` the vision, task and
   * prompt, each labelled and only when it is not empty; for `chat` and
   * `chatWithFiles` the prompt as it is; for `continue` the tail of the
   * last reply; nothing for any other mode.
   */
  function TextParts(mode: Mode, vision: string, task: string, prompt: string, lastReply: string): (ps: seq<string>)
    ensures mode == SendAll ==> |ps| == Filled(vision) + Filled(task) + Filled(prompt)
    ensures mode == SendAll && vision != "" ==> ps[0] == "VISION:\n" + vision
    ensures mode == SendAll && prompt != "" ==> ps[|ps| - 1] == "PROMPT:\n" + prompt
    ensures mode == Chat || mode == ChatWithFiles ==> ps == [prompt]
    ensures mode == Continue ==> ps == [ContinueText(lastReply)]
    ensures mode.OtherMode? ==> ps == []
  {
    match mode
    case SendAll => Labelled("VISION:\n", vision) + Labelled("TASK:\n", task) + Labelled("PROMPT:\n", prompt)
    case Chat => [prompt]
    case ChatWithFiles => [prompt]
    case Continue => [ContinueText(lastReply)]
    case OtherMode(_) => []
  }

  /**
   * `buildFullPrompt`: the text parts joined by blank lines as one text
   * block (none when there are no parts); then, for `sendAll` and
   * `chatWithFiles` with at least one file, one block holding that text
   * (or the empty string) and every file, joined by blank lines.
   */
  function BuildFullPrompt(mode: Mode, vision: string, task: string, prompt: string,
                           files: Option<seq<File>>, lastReply: string): (content: seq<string>)
    ensures |content| <= 1
  {
    var parts := TextParts(mode, vision, task, prompt, lastReply);
    var content := if |parts| > 0 then [JoinWith(parts, "\n\n")] else [];
    if files.Some? && (mode == SendAll || mode == ChatWithFiles) && |files.value| > 0 then
      var mainText := if |content| > 0 then content[0] else "";
      [JoinWith([mainText] + seq(|files.value|, i requires 0 <= i < |files.value| => FilePart(files.value[i])), "\n\n")]
    else content
  }

  /** Files only reach the prompt in `sendAll` and `chatWithFiles`: in any other mode the prompt is the same without them. */
  lemma FilesOnlyWhenAsked(mode: Mode, vision: string, task: string, prompt: string, files: Option<seq<File>>, lastReply: string)
    requires mode != SendAll && mode != ChatWithFiles
    ensures BuildFullPrompt(mode, vision, task, prompt, files, lastReply) == BuildFullPrompt(mode, vision, task, prompt, None, lastReply)
  {
  }

  /** Without files, a `sendAll` prompt is empty exactly when the vision, task and prompt texts all are. */
  lemma SendAllEmptyOnlyWhenAllEmpty(vision: string, task: string, prompt: string, files: Option<seq<File>>, lastReply: string)
    requires files.None? || files.value == []
    ensures BuildFullPrompt(SendAll, vision, task, prompt, files, lastReply) == [] <==> (vision == "" && task == "" && prompt == "")
  {
    var parts := TextParts(SendAll, vision, task, prompt, lastReply);
    assert |parts| == 0 <==> (vision == "" && task == "" && prompt == "");
  }

  /** With files, the prompt is one block: the text block (or nothing) and a blank line, then the files joined by blank lines. */
  lemma {:induction false} FilesFollowTheText(mode: Mode, vision: string, task: string, prompt: string, files: seq<File>, lastReply: string)
    requires mode == SendAll || mode == ChatWithFiles
    requires files != []
    ensures var parts := TextParts(mode, vision, task, prompt, lastReply);
            var mainText := if |parts| > 0 then JoinWith(parts, "\n\n") else "";
            BuildFullPrompt(mode, vision, task, prompt, Some(files), lastReply)
              == [mainText + "\n\n" + JoinWith(seq(|files|, i requires 0 <= i < |files| => FilePart(files[i])), "\n\n")]
  {
    var fileParts := seq(|files|, i requires 0 <= i < |files| => FilePart(files[i]));
    var parts := TextParts(mode, vision, task, prompt, lastReply);
    var mainText := if |parts| > 0 then JoinWith(parts, "\n\n") else "";
    assert ([mainText] + fileParts)[1..] == fileParts;
  }

  /** A `continue` prompt quotes at most the last 300 characters of the last reply, and all of a shorter one. */
  lemma ContinueQuotesTheTail(lastReply: string)
    ensures var t := LastChars(lastReply, 300);
            |t| <= 300 && lastReply == lastReply[..|lastReply| - |t|] + t
            && (|lastReply| <= 300 ==> t == lastReply)
  {
  }
}
