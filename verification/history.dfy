/**
 The chat page's conversation state (app/page.tsx) with React taken away:
 a history of turns, the prompt box's text and a loading flag, changed only
 by submitting a prompt, by the arrival (or failure) of the reply, and by
 regenerating. The `/api/chat` call is an abstract delivery.
 */
module History {
  import opened Turns

  /** The text a user turn carries when only attachments were submitted. */
  const AttachmentPlaceholder: string := "Sent with attachments"

  /** What the prompt box submits: its text ("" when absent) and how many files are attached. */
  datatype Prompt = Prompt(text: string, files: nat)

  /** The page's state: the visible history, the prompt box's text, and whether a reply is awaited. */
  datatype ChatState = ChatState(history: seq<Turn>, input: string, loading: bool)

  /**
   A submit up to its network call: ignored, or sent with the state shown
   while the reply is awaited and the list of turns posted to `/api/chat`.
   */
  datatype Submission = Ignored | Sent(state: ChatState, request: seq<Turn>)

  /**
   What the page gets back from `/api/chat`: the call or the decoding of
   its body threw, or the decoded reply turn.
   */
  datatype Delivery = Failed | Delivered(body: Turn)

  /** The user turn a submitted prompt produces: its text, or the placeholder when only files were attached. */
  function UserTurnOf(p: Prompt, id: string): Turn
  {
    TextTurn(id, User, Some(if p.text != "" then p.text else AttachmentPlaceholder))
  }

  /** The first, synchronous half of a submit: guard, build and append the user turn, start loading. */
  function Submit(s: ChatState, p: Prompt, id: string): (r: Submission)
    ensures r.Ignored? <==> p.text == "" && p.files == 0
    ensures r.Sent? ==>
      && |r.state.history| == |s.history| + 1
      && r.state.history[..|s.history|] == s.history
      && r.state.input == ""
      && r.state.loading
      && r.request == r.state.history
    ensures r.Sent? ==>
      var u := r.state.history[|s.history|];
      && u.id == id && u.role == User && |u.parts| == 1
      && FirstText(u) == Some(if p.text != "" then p.text else AttachmentPlaceholder)
  {
    if p.text == "" && p.files == 0 then
      Ignored
    else
      Sent(ChatState(s.history + [UserTurnOf(p, id)], "", true), s.history + [UserTurnOf(p, id)])
  }

  /** A delivery the page can read: its body has a first part, so `data.parts[0].text` does not throw. */
  predicate Usable(d: Delivery)
  {
    d.Delivered? && |d.body.parts| > 0
  }

  /**
   The second half of a submit, once `/api/chat` has answered or failed: a
   readable reply appends one assistant turn carrying its first part's text;
   anything else appends nothing. Loading ends either way.
   */
  function Complete(s: ChatState, d: Delivery, id: string): (r: ChatState)
    ensures !r.loading && r.input == s.input
    ensures Usable(d) ==> r.history == s.history + [TextTurn(id, Assistant, d.body.parts[0].text)]
    ensures !Usable(d) ==> r.history == s.history
  {
    if Usable(d) then
      ChatState(s.history + [TextTurn(id, Assistant, d.body.parts[0].text)], s.input, false)
    else
      s.(loading := false)
  }

  /**
   A whole submit: the request goes to `net`, whose delivery completes it.
   An ignored prompt changes nothing. A sent one never removes or replaces a
   turn: it adds the user turn and at most one more, and loading is over.
   */
  function Exchange(s: ChatState, p: Prompt, userId: string, replyId: string,
                    net: seq<Turn> -> Delivery): (r: ChatState)
    ensures p.text == "" && p.files == 0 ==> r == s
    ensures !(p.text == "" && p.files == 0) ==>
      && |s.history| + 1 <= |r.history| <= |s.history| + 2
      && r.history[..|s.history|] == s.history
      && r.history[|s.history|].role == User
      && (|r.history| == |s.history| + 2 ==> r.history[|s.history| + 1].role == Assistant)
      && !r.loading
      && r.input == ""
  {
    match Submit(s, p, userId)
    case Ignored => s
    case Sent(pending, request) => Complete(pending, net(request), replyId)
  }

  /**
   A submit leaves the state alone when there is neither text nor a file.
   Otherwise the network sees exactly the old history plus the new user
   turn; afterwards the old history is untouched, the user turn follows it,
   an assistant turn follows that exactly when the delivery was readable,
   and loading is over.
   */
  lemma ExchangeAppends(s: ChatState, p: Prompt, userId: string, replyId: string,
                        net: seq<Turn> -> Delivery)
    ensures p.text == "" && p.files == 0 ==> Exchange(s, p, userId, replyId, net) == s
    ensures !(p.text == "" && p.files == 0) ==>
      var r := Exchange(s, p, userId, replyId, net);
      var user := UserTurnOf(p, userId);
      var d := net(s.history + [user]);
      && !r.loading
      && r.input == ""
      && (Usable(d) ==> r.history == s.history + [user, TextTurn(replyId, Assistant, d.body.parts[0].text)])
      && (!Usable(d) ==> r.history == s.history + [user])
  {
  }

  /**
   The user turns of `h`, in order (`messages.filter((m) => m.role === 'user')`):
   only user turns are kept, none is invented, and the result is empty
   exactly when `h` has no user turn.
   */
  function UserTurns(h: seq<Turn>): (us: seq<Turn>)
    ensures |us| <= |h|
    ensures forall j :: 0 <= j < |us| ==> us[j].role == User
    ensures |us| == 0 <==> forall i :: 0 <= i < |h| ==> h[i].role != User
    decreases |h|
  {
    if |h| == 0 then []
    else UserTurns(h[..|h| - 1]) + (if h[|h| - 1].role == User then [h[|h| - 1]] else [])
  }

  /** The last of the user turns, if any (`.at(-1)`): a user turn, found exactly when `h` has one. */
  function LastUserTurn(h: seq<Turn>): (r: Option<Turn>)
    ensures r.None? <==> forall i :: 0 <= i < |h| ==> h[i].role != User
    ensures r.Some? ==> r.value.role == User
  {
    var us := UserTurns(h);
    if |us| == 0 then None else Some(us[|us| - 1])
  }

  /** Position `i` holds a user turn and no later position does. */
  predicate IsLastUser(h: seq<Turn>, i: int)
  {
    0 <= i < |h| && h[i].role == User && forall j :: i < j < |h| ==> h[j].role != User
  }

  /** A non-user turn appended after the last user position leaves it the last. */
  lemma LastUserKeptPastOtherTurn(h: seq<Turn>, i: int)
    requires |h| > 0 && h[|h| - 1].role != User
    requires IsLastUser(h[..|h| - 1], i)
    ensures IsLastUser(h, i) && h[i] == h[..|h| - 1][i]
  {
  }

  /**
   The filtered-then-last lookup finds the most recent user turn: it finds
   none exactly when no turn has the user role, and otherwise returns the
   turn at the last user position.
   */
  lemma {:induction false} LastUserTurnIsLatest(h: seq<Turn>)
    ensures LastUserTurn(h).None? <==> forall i :: 0 <= i < |h| ==> h[i].role != User
    ensures LastUserTurn(h).Some? ==>
      exists i :: IsLastUser(h, i) && h[i] == LastUserTurn(h).value
    decreases |h|
  {
    if |h| > 0 {
      var init := h[..|h| - 1];
      var last := h[|h| - 1];
      if last.role == User {
        assert UserTurns(h) == UserTurns(init) + [last];
        assert IsLastUser(h, |h| - 1);
      } else {
        LastUserTurnIsLatest(init);
        assert UserTurns(h) == UserTurns(init);
        if LastUserTurn(init).Some? {
          var i :| IsLastUser(init, i) && init[i] == LastUserTurn(init).value;
          LastUserKeptPastOtherTurn(h, i);
        }
      }
    }
  }

  /**
   The Retry action. It does nothing when there is no history or no user
   turn. Otherwise it submits the text of the last user turn; reading
   `parts[0]` of a turn without parts throws before anything is submitted,
   and a missing or empty text makes the submit ignore it.
   */
  function Regenerate(s: ChatState, id: string): (r: Submission)
    ensures |s.history| == 0 ==> r.Ignored?
    ensures (forall i :: 0 <= i < |s.history| ==> s.history[i].role != User) ==> r.Ignored?
    ensures r.Sent? <==> exists i :: IsLastUser(s.history, i) && HasText(s.history[i])
    ensures forall i :: IsLastUser(s.history, i) && HasText(s.history[i]) ==>
      r == Submit(s, Prompt(FirstText(s.history[i]).value, 0), id)
  {
    LastUserTurnIsLatest(s.history);
    if |s.history| == 0 then
      Ignored
    else
      match LastUserTurn(s.history)
      case None => Ignored
      case Some(u) =>
        if |u.parts| == 0 then
          Ignored
        else
          Submit(s, Prompt(if u.parts[0].text.Some? then u.parts[0].text.value else "", 0), id)
  }

  /**
   A regenerate that goes through appends a copy of the last user turn's
   text as a new user turn after the whole existing history; nothing is
   removed or replaced.
   */
  lemma RegenerateAppendsDuplicate(s: ChatState, id: string, i: int)
    requires IsLastUser(s.history, i) && HasText(s.history[i])
    ensures Regenerate(s, id).Sent?
    ensures Regenerate(s, id).state.history ==
      s.history + [TextTurn(id, User, FirstText(s.history[i]))]
  {
  }

  /** Part `i` of turn `t` carries the Retry and Copy actions: never on a user turn, only on the final part. */
  function ShowsActions(t: Turn, i: int): (b: bool)
    ensures b ==> t.role != User && i + 1 == |t.parts|
  {
    t.role == Assistant && i == |t.parts| - 1
  }

  /** One rendered Retry/Copy group: which turn, which part, and the text Copy puts on the clipboard. */
  datatype ActionSlot = ActionSlot(turn: nat, part: nat, copies: Option<string>)

  predicate IsActionSlot(h: seq<Turn>, a: ActionSlot)
  {
    && a.turn < |h|
    && a.part < |h[a.turn].parts|
    && ShowsActions(h[a.turn], a.part)
    && a.copies == h[a.turn].parts[a.part].text
  }

  /**
   The render walk over the parts of turn `k`: the action groups placed
   beside them. An assistant turn with parts gets one, on its last part;
   any other turn gets none.
   */
  method PartActions(h: seq<Turn>, k: nat) returns (group: seq<ActionSlot>)
    requires k < |h|
    ensures |group| == (if h[k].role == Assistant && |h[k].parts| > 0 then 1 else 0)
    ensures forall j :: 0 <= j < |group| ==> IsActionSlot(h, group[j]) && group[j].turn == k
  {
    group := [];
    var t := h[k];
    for i := 0 to |t.parts|
      invariant |group| == (if t.role == Assistant && 0 <= |t.parts| - 1 < i then 1 else 0)
      invariant forall j :: 0 <= j < |group| ==> IsActionSlot(h, group[j]) && group[j].turn == k
    {
      if t.role == Assistant && i == |t.parts| - 1 {
        group := group + [ActionSlot(k, i, t.parts[i].text)];
      }
    }
  }

  /**
   The render walk over every turn, collecting the action groups in display
   order. Each group sits on the last part of an assistant turn and copies
   that part's text; every assistant turn with a part gets exactly one
   group; user turns get none.
   */
  method RenderActions(h: seq<Turn>) returns (slots: seq<ActionSlot>)
    ensures forall j :: 0 <= j < |slots| ==> IsActionSlot(h, slots[j]) && h[slots[j].turn].role != User
    ensures forall k :: 0 <= k < |h| && h[k].role == Assistant && |h[k].parts| > 0 ==>
      exists j :: 0 <= j < |slots| && slots[j].turn == k
    ensures forall j, l :: 0 <= j < l < |slots| ==> slots[j].turn < slots[l].turn
  {
    slots := [];
    for k := 0 to |h|
      invariant forall j :: 0 <= j < |slots| ==> IsActionSlot(h, slots[j]) && slots[j].turn < k
      invariant forall j, l :: 0 <= j < l < |slots| ==> slots[j].turn < slots[l].turn
      invariant forall k' :: 0 <= k' < k && h[k'].role == Assistant && |h[k'].parts| > 0 ==>
        exists j :: 0 <= j < |slots| && slots[j].turn == k'
    {
      var group := PartActions(h, k);
      ghost var before := slots;
      slots := slots + group;
      assert forall j :: 0 <= j < |before| ==> slots[j] == before[j];
      if |group| > 0 {
        assert slots[|before|].turn == k;
      }
    }
  }
}
