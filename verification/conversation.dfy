/**
 The page and the route together: what the language model actually sees as
 a conversation goes on. A run of successful exchanges keeps the history a
 strict user/assistant alternation, which the route forwards in full; a
 failed exchange or a reply without text leaves the history ending in a
 user turn, and the route then drops the next question as a repeated role.
 */
module Conversation {
  import opened Turns
  import opened Normalizer
  import opened ChatRoute
  import opened History

  /** The page's network when `/api/chat` is this route: it always delivers the route's reply. */
  function ViaRoute(upstream: CompletionRequest -> Upstream, now: string): seq<Turn> -> Delivery
  {
    request => Delivered(Handle(RequestBody(Some(request)), upstream, now))
  }

  /**
   Over the route, every sent prompt gets an assistant turn: the reply text
   is the one chosen from the inference server's answer to the normalised
   history plus the new user turn.
   */
  lemma RouteAlwaysAnswers(s: ChatState, p: Prompt, userId: string, replyId: string,
                           upstream: CompletionRequest -> Upstream, now: string)
    requires p.text != "" || p.files > 0
    ensures Exchange(s, p, userId, replyId, ViaRoute(upstream, now)).history ==
      s.history + [UserTurnOf(p, userId),
                   TextTurn(replyId, Assistant,
                            ReplyText(upstream(OutboundRequest(
                              [SystemPrompt] + Collapse(s.history + [UserTurnOf(p, userId)], System)))))]
  {
  }

  /** A history made of complete user/assistant pairs, every turn with text. */
  predicate Settled(h: seq<Turn>)
  {
    && |h| % 2 == 0
    && forall i :: 0 <= i < |h| ==> HasText(h[i]) && h[i].role == (if i % 2 == 0 then User else Assistant)
  }

  /**
   From a settled history, a sent prompt whose reply is readable and has
   text leaves the history settled again.
   */
  lemma SettledPreserved(s: ChatState, p: Prompt, userId: string, replyId: string, net: seq<Turn> -> Delivery)
    requires Settled(s.history)
    requires p.text != "" || p.files > 0
    requires Usable(net(s.history + [UserTurnOf(p, userId)]))
    requires net(s.history + [UserTurnOf(p, userId)]).body.parts[0].text.Some?
    requires net(s.history + [UserTurnOf(p, userId)]).body.parts[0].text.value != ""
    ensures Settled(Exchange(s, p, userId, replyId, net).history)
  {
  }

  /**
   From a settled history, the request a prompt sends is forwarded in
   full: the model sees the system entry and then every turn, the new
   question last.
   */
  lemma SettledRequestForwardedInFull(s: ChatState, p: Prompt, id: string)
    requires Settled(s.history)
    requires p.text != "" || p.files > 0
    ensures var request := Submit(s, p, id).request;
      && AllHaveText(request)
      && Normalize(Some(request)) == Forward([SystemPrompt] + Messages(request))
      && Normalize(Some(request)).messages[|request|] == MessageOf(UserTurnOf(p, id))
  {
    var request := Submit(s, p, id).request;
    assert request == s.history + [UserTurnOf(p, id)];
    forall i | 0 <= i < |request|
      ensures HasText(request[i]) && request[i].role == (if i % 2 == 0 then User else Assistant)
    {
      if i < |s.history| {
        assert request[i] == s.history[i];
      }
    }
    forall i | 0 <= i < |request| - 1
      ensures request[i].role != request[i + 1].role
    {
    }
    AlternatingInputForwardedInFull(request);
  }

  /**
   After an exchange whose delivery was unreadable, the history ends with
   the user turn. The next prompt's request then forwards exactly what that
   history alone would: the new question never reaches the model.
   */
  lemma FailedExchangeStrandsNextQuestion(s: ChatState, p1: Prompt, p2: Prompt, id1: string, replyId: string,
                                          id2: string, net: seq<Turn> -> Delivery)
    requires p1.text != "" || p1.files > 0
    requires p2.text != "" || p2.files > 0
    requires !Usable(net(s.history + [UserTurnOf(p1, id1)]))
    ensures var s1 := Exchange(s, p1, id1, replyId, net);
      Normalize(Some(Submit(s1, p2, id2).request)) == Normalize(Some(s1.history))
  {
    ExchangeAppends(s, p1, id1, replyId, net);
    var s1 := Exchange(s, p1, id1, replyId, net);
    assert s1.history == s.history + [UserTurnOf(p1, id1)];
    assert Submit(s1, p2, id2).request == s1.history + [UserTurnOf(p2, id2)];
    RepeatedRoleNotForwarded(s1.history, UserTurnOf(p2, id2));
  }

  /**
   When the route answers with no text (the server's reply had no content),
   the assistant turn is dropped on the next request and `lastRole` stays
   "user", so the next question is dropped as well.
   */
  lemma EmptyReplyStrandsNextQuestion(s: ChatState, p1: Prompt, p2: Prompt, id1: string, replyId: string,
                                      id2: string, upstream: CompletionRequest -> Upstream, now: string)
    requires p1.text != "" || p1.files > 0
    requires p2.text != "" || p2.files > 0
    requires var up := upstream(OutboundRequest(
               [SystemPrompt] + Collapse(s.history + [UserTurnOf(p1, id1)], System)));
             ReplyText(up).None? || ReplyText(up) == Some("")
    ensures var s1 := Exchange(s, p1, id1, replyId, ViaRoute(upstream, now));
      Normalize(Some(Submit(s1, p2, id2).request)) == Normalize(Some(s1.history))
  {
    RouteAlwaysAnswers(s, p1, id1, replyId, upstream, now);
    var s1 := Exchange(s, p1, id1, replyId, ViaRoute(upstream, now));
    var u1 := UserTurnOf(p1, id1);
    var h := s.history + [u1];
    var a := s1.history[|s1.history| - 1];
    assert s1.history == h + [a];
    assert !HasText(a);
    LastRoleStep(h, a, System);
    LastRoleStep(s.history, u1, System);
    assert Submit(s1, p2, id2).request == s1.history + [UserTurnOf(p2, id2)];
    SkippedWhenRepeatingLastRole(s1.history, UserTurnOf(p2, id2));
  }

  /**
   Retry after a failed exchange resubmits the stranded question; the model
   is sent the same list as before, so the duplicate user turn is never
   forwarded.
   */
  lemma RetryAfterFailureResendsSameList(s: ChatState, p: Prompt, id1: string, replyId: string,
                                         id2: string, net: seq<Turn> -> Delivery)
    requires p.text != "" || p.files > 0
    requires !Usable(net(s.history + [UserTurnOf(p, id1)]))
    ensures var s1 := Exchange(s, p, id1, replyId, net);
      && Regenerate(s1, id2).Sent?
      && Regenerate(s1, id2).state.history == s1.history + [UserTurnOf(p, id2)]
      && Normalize(Some(Regenerate(s1, id2).request)) == Normalize(Some(s1.history))
  {
    ExchangeAppends(s, p, id1, replyId, net);
    var s1 := Exchange(s, p, id1, replyId, net);
    var i := |s1.history| - 1;
    assert s1.history[i] == UserTurnOf(p, id1);
    assert IsLastUser(s1.history, i);
    RegenerateAppendsDuplicate(s1, id2, i);
    RepeatedRoleNotForwarded(s1.history, UserTurnOf(p, id2));
  }
}
