/** The clipboard watcher thread (app/clipboard.rs): applies remote texts, polls the local
    clipboard, and must not send back what it has just applied. */
module Watcher {
  import opened Wrappers
  import opened Utf8

  const MAX_TEXT_BYTES: nat := 1_000_000
  /** Milliseconds between polls. */
  const POLL_INTERVAL: nat := 1000

  type Text = seq<byte>
  type Hash = nat

  /** What `set_text` did: it wrote the text, it failed and left the clipboard alone, or it failed and
      left the clipboard without text. */
  datatype Outcome = Written | Untouched | Emptied

  /** `board` is the text the clipboard holds, if it holds text; `emitted` every event the watcher tried to send. */
  datatype State = State(board: Option<Text>, lastHash: Option<Hash>, emitted: seq<Text>)

  datatype Event =
    | UserChange(board: Option<Text>)
    | RemoteApply(text: Text, outcome: Outcome)
    /** `readable` is false when `get_text` fails twice in a row. */
    | Poll(readable: bool)

  predicate Sendable(t: Text) { 0 < |t| <= MAX_TEXT_BYTES }

  /** The next poll that can read the clipboard would emit its text. */
  predicate Pending(s: State, hash: Text -> Hash) {
    s.board.Some? && Sendable(s.board.value) && s.lastHash != Some(hash(s.board.value))
  }

  function Applied(s: State, text: Text, outcome: Outcome, hash: Text -> Hash): State {
    match outcome
    case Written => s.(board := Some(text), lastHash := Some(hash(text)))
    case Untouched => s
    case Emptied => s.(board := None)
  }

  function Polled(s: State, readable: bool, hash: Text -> Hash): State {
    if readable && Pending(s, hash)
    then s.(lastHash := Some(hash(s.board.value)), emitted := s.emitted + [s.board.value])
    else s
  }

  function Step(s: State, e: Event, hash: Text -> Hash): State {
    match e
    case UserChange(b) => s.(board := b)
    case RemoteApply(t, outcome) => Applied(s, t, outcome, hash)
    case Poll(readable) => Polled(s, readable, hash)
  }

  function Run(s: State, es: seq<Event>, hash: Text -> Hash): State {
    if es == [] then s else Step(Run(s, es[..|es| - 1], hash), es[|es| - 1], hash)
  }

  // ---------------------------------------------------------------------------
  // The thread
  // ---------------------------------------------------------------------------

  class ClipboardThread {
    const hash: Text -> Hash
    var board: Option<Text>
    var lastHash: Option<Hash>
    var lastPollAt: nat
    ghost var emitted: seq<Text>

    ghost function View(): State
      reads this
    {
      State(board, lastHash, emitted)
    }

    constructor (hash: Text -> Hash, board: Option<Text>, startedAt: nat)
      ensures View() == State(board, None, []) && this.hash == hash
      ensures lastPollAt == if startedAt < 2000 then startedAt else startedAt - 2000
    {
      this.hash := hash;
      this.board, lastHash, emitted := board, None, [];
      lastPollAt := if startedAt < 2 * POLL_INTERVAL then startedAt else startedAt - 2 * POLL_INTERVAL;
    }

    /** `apply_text_to_clipboard`; `outcome` is what the operating system answers. */
    method ApplyText(text: Text, outcome: Outcome)
      modifies this
      ensures View() == Applied(old(View()), text, outcome, hash) && lastPollAt == old(lastPollAt)
      ensures outcome == Written ==> board == Some(text) && lastHash == Some(hash(text))
      ensures outcome == Untouched ==> board == old(board) && lastHash == old(lastHash)
      ensures outcome == Emptied ==> board == None && lastHash == old(lastHash)
      ensures emitted == old(emitted)
    {
      match outcome {
        case Written =>
          board := Some(text);
          lastHash := Some(hash(text));
        case Untouched =>
        case Emptied =>
          board := None;
      }
    }

    /** `poll_text_clipboard`: two attempts to read, each of which may fail. */
    method PollText(firstOk: bool, secondOk: bool) returns (sent: Option<Text>)
      modifies this
      ensures View() == Polled(old(View()), firstOk || secondOk, hash) && lastPollAt == old(lastPollAt)
      ensures emitted == old(emitted) + (if sent.Some? then [sent.value] else [])
      ensures board == old(board) && (sent.Some? ==> sent == board && lastHash == Some(hash(sent.value)))
      ensures sent.None? ==> lastHash == old(lastHash)
      ensures sent.Some? <==> ((firstOk || secondOk) && board.Some? && 1 <= |board.value| <= 1_000_000
                               && old(lastHash) != Some(hash(board.value)))
    {
      sent := None;
      if !firstOk && !secondOk {
        return;
      }
      if board.None? {
        return;
      }
      var text := board.value;
      if text == [] {
        return;
      }
      if MAX_TEXT_BYTES < |text| {
        return;
      }
      var h := hash(text);
      if Some(h) == lastHash {
        return;
      }
      lastHash := Some(h);
      emitted := emitted + [text];
      sent := Some(text);
    }

    /** One turn of the loop: drain the queue of texts to apply, then poll if a second has passed. */
    method Turn(queue: seq<(Text, Outcome)>, now: nat, firstOk: bool, secondOk: bool) returns (sent: Option<Text>)
      requires lastPollAt <= now
      modifies this
      ensures View() == Run(old(View()), TurnEvents(queue, now - old(lastPollAt), firstOk || secondOk), hash)
      ensures lastPollAt == if POLL_INTERVAL <= now - old(lastPollAt) then now else old(lastPollAt)
      ensures forall i | 0 <= i < |queue| && queue[i].1 != Untouched && (forall j | i < j < |queue| :: queue[j].1 == Untouched) ::
        board == if queue[i].1 == Written then Some(queue[i].0) else None
      ensures (forall i | 0 <= i < |queue| :: queue[i].1 == Untouched) ==> board == old(board)
      ensures sent.Some? ==> sent == board && 1000 <= now - old(lastPollAt)
    {
      ghost var start := View();
      var i := 0;
      while i < |queue|
        invariant 0 <= i <= |queue| && lastPollAt == old(lastPollAt)
        invariant View() == Run(start, ApplyEvents(queue[..i]), hash)
        invariant forall k | 0 <= k < i && queue[k].1 != Untouched && (forall j | k < j < i :: queue[j].1 == Untouched) ::
          board == if queue[k].1 == Written then Some(queue[k].0) else None
        invariant (forall k | 0 <= k < i :: queue[k].1 == Untouched) ==> board == old(board)
      {
        ApplyText(queue[i].0, queue[i].1);
        assert queue[..i + 1][..i] == queue[..i];
        assert ApplyEvents(queue[..i + 1])[..i] == ApplyEvents(queue[..i]);
        i := i + 1;
      }
      assert queue[..i] == queue;
      sent := None;
      if POLL_INTERVAL <= now - lastPollAt {
        ghost var es := ApplyEvents(queue);
        assert (es + [Poll(firstOk || secondOk)])[..|es|] == es;
        lastPollAt := now;
        sent := PollText(firstOk, secondOk);
      } else {
        assert ApplyEvents(queue) + [] == ApplyEvents(queue);
      }
    }
  }

  function ApplyEvents(queue: seq<(Text, Outcome)>): (es: seq<Event>)
    ensures |es| == |queue|
  {
    seq(|queue|, i requires 0 <= i < |queue| => RemoteApply(queue[i].0, queue[i].1))
  }

  function TurnEvents(queue: seq<(Text, Outcome)>, elapsed: nat, readable: bool): seq<Event> {
    ApplyEvents(queue) + (if POLL_INTERVAL <= elapsed then [Poll(readable)] else [])
  }

  // ---------------------------------------------------------------------------
  // What the clipboard holds
  // ---------------------------------------------------------------------------

  /** What was last put there: by the user, by a remote text that was written, or by a failure that emptied it. */
  function LatestBoard(start: Option<Text>, es: seq<Event>): Option<Text> {
    if es == [] then start else
    match es[|es| - 1]
    case UserChange(b) => b
    case RemoteApply(t, Written) => Some(t)
    case RemoteApply(_, Emptied) => None
    case _ => LatestBoard(start, es[..|es| - 1])
  }

  /** In every run the clipboard holds what was last put there: a remote text that was written stays until the user or
      another text replaces it, and polls and harmless failures leave it alone. */
  lemma {:induction false} BoardIsTheLatest(s: State, es: seq<Event>, hash: Text -> Hash)
    ensures Run(s, es, hash).board == LatestBoard(s.board, es)
  {
    if es != [] {
      BoardIsTheLatest(s, es[..|es| - 1], hash);
    }
  }

  // ---------------------------------------------------------------------------
  // No loops
  // ---------------------------------------------------------------------------

  function UserChanges(es: seq<Event>): nat {
    if es == [] then 0 else UserChanges(es[..|es| - 1]) + (if es[|es| - 1].UserChange? then 1 else 0)
  }

  function Owed(s: State, hash: Text -> Hash): nat { if Pending(s, hash) then 1 else 0 }

  /** Emissions, made and pending, grow only with what the user does: never with remote texts. */
  lemma {:induction false} EmissionsOweToTheUser(s: State, es: seq<Event>, hash: Text -> Hash)
    ensures var s' := Run(s, es, hash);
      |s'.emitted| + Owed(s', hash) <= |s.emitted| + Owed(s, hash) + UserChanges(es)
  {
    if es != [] {
      EmissionsOweToTheUser(s, es[..|es| - 1], hash);
    }
  }

  /** From its start the watcher tries to send at most one text more than the user made changes, the one
      extra being what the clipboard held at the start, if that could be sent at all. */
  lemma EmissionsAreBounded(board: Option<Text>, es: seq<Event>, hash: Text -> Hash)
    ensures var extra := if board.Some? && Sendable(board.value) then 1 else 0;
      |Run(State(board, None, []), es, hash).emitted| <= UserChanges(es) + extra
  {
    EmissionsOweToTheUser(State(board, None, []), es, hash);
  }

  lemma {:induction false} QuietUntilTheUser(s: State, es: seq<Event>, hash: Text -> Hash)
    requires !Pending(s, hash) && UserChanges(es) == 0
    ensures Run(s, es, hash).emitted == s.emitted && !Pending(Run(s, es, hash), hash)
  {
    if es != [] {
      QuietUntilTheUser(s, es[..|es| - 1], hash);
    }
  }

  lemma {:induction false} RunConcat(s: State, es1: seq<Event>, es2: seq<Event>, hash: Text -> Hash)
    ensures Run(s, es1 + es2, hash) == Run(Run(s, es1, hash), es2, hash)
  {
    if es2 == [] {
      assert es1 + es2 == es1;
    } else {
      RunConcat(s, es1, es2[..|es2| - 1], hash);
      assert (es1 + es2)[..|es1 + es2| - 1] == es1 + es2[..|es2| - 1];
    }
  }

  /** After a remote text has been written, nothing at all is sent until the user changes the clipboard. */
  lemma AppliedTextIsNotSentBack(s: State, before: seq<Event>, t: Text, after: seq<Event>, hash: Text -> Hash)
    requires UserChanges(after) == 0
    ensures var es := before + [RemoteApply(t, Written)];
      Run(s, es + after, hash).emitted == Run(s, before, hash).emitted
  {
    var es := before + [RemoteApply(t, Written)];
    assert es[..|es| - 1] == before;
    RunConcat(s, es, after, hash);
    QuietUntilTheUser(Run(s, es, hash), after, hash);
  }

  /** Only non-empty texts of at most a million bytes are sent. */
  lemma {:induction false} EmissionsAreSendable(board: Option<Text>, es: seq<Event>, hash: Text -> Hash)
    ensures forall t | t in Run(State(board, None, []), es, hash).emitted :: Sendable(t)
  {
    if es != [] {
      EmissionsAreSendable(board, es[..|es| - 1], hash);
    }
  }

  // ---------------------------------------------------------------------------
  // Nothing is missed, if the hash does not collide
  // ---------------------------------------------------------------------------

  ghost predicate Injective(hash: Text -> Hash) { forall a, b | hash(a) == hash(b) :: a == b }

  /** The text last written for a peer or last sent. */
  function LastSynced(s: State, es: seq<Event>, hash: Text -> Hash): Option<Text> {
    if es == [] then None else
    var init, e := es[..|es| - 1], es[|es| - 1];
    var before := Run(s, init, hash);
    if e.RemoteApply? && e.outcome == Written then Some(e.text)
    else if e == Poll(true) && Pending(before, hash) then before.board
    else LastSynced(s, init, hash)
  }

  lemma {:induction false} LastHashIsOfLastSynced(board: Option<Text>, es: seq<Event>, hash: Text -> Hash)
    ensures var s := State(board, None, []);
      Run(s, es, hash).lastHash == match LastSynced(s, es, hash) case None => None case Some(t) => Some(hash(t))
  {
    if es != [] {
      LastHashIsOfLastSynced(board, es[..|es| - 1], hash);
    }
  }

  /** A poll that can read the clipboard sends its text exactly when the text is sendable and is not the
      one last synchronised in either direction. */
  lemma PollSendsExactlyWhatIsNew(board: Option<Text>, es: seq<Event>, hash: Text -> Hash)
    requires Injective(hash)
    ensures var s := State(board, None, []);
      var now := Run(s, es, hash);
      Polled(now, true, hash).emitted
        == if now.board.Some? && Sendable(now.board.value) && LastSynced(s, es, hash) != now.board
           then now.emitted + [now.board.value] else now.emitted
  {
    LastHashIsOfLastSynced(board, es, hash);
  }
}
