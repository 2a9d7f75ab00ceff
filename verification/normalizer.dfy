/**
 The message normaliser of the chat route (app/api/chat/route.ts): it turns
 the client's list of turns into the chat-completion message list that is
 forwarded to the language model. A fixed system entry comes first; turns
 without text are dropped; a turn that repeats the last accepted role is
 skipped unless that role is "system".
 */
module Normalizer {
  import opened Turns

  /** One entry of the chat-completion request, `{ role, content }`. */
  datatype ChatMessage = ChatMessage(role: string, content: string)

  /** The fixed entry every forwarded list starts with. */
  const SystemPrompt: ChatMessage := ChatMessage(System, "You are a helpful assistant.")

  /** What the normaliser decides: answer without calling the model, or forward a list. */
  datatype Forwarding = NoMessages | Forward(messages: seq<ChatMessage>)

  /**
   The skip rule. `lastRole` must be truthy for it to apply, so after a turn
   whose role is the empty string has been accepted the rule never fires.
   */
  predicate Skips(lastRole: string, role: string)
  {
    lastRole != "" && role == lastRole && role != System
  }

  predicate Accepts(lastRole: string, t: Turn)
  {
    HasText(t) && !Skips(lastRole, t.role)
  }

  /** The entry an accepted turn becomes. */
  function MessageOf(t: Turn): ChatMessage
    requires HasText(t)
  {
    ChatMessage(t.role, FirstText(t).value)
  }

  /** Two neighbouring entries share a role only when that role is exempt from the skip rule. */
  predicate NoRepeatedRole(msgs: seq<ChatMessage>)
  {
    forall k :: 0 <= k < |msgs| - 1 ==>
      msgs[k].role == msgs[k + 1].role ==> msgs[k].role == System || msgs[k].role == ""
  }

  /**
   The body of the normalising loop over `turns`, started with the given
   last accepted role: the entries it appends, in order.
   */
  function Collapse(turns: seq<Turn>, lastRole: string): (out: seq<ChatMessage>)
    ensures |out| <= |turns|
    ensures |out| > 0 ==> !Skips(lastRole, out[0].role)
    ensures NoRepeatedRole(out)
    decreases |turns|
  {
    if |turns| == 0 then
      []
    else if Accepts(lastRole, turns[0]) then
      [MessageOf(turns[0])] + Collapse(turns[1..], turns[0].role)
    else
      Collapse(turns[1..], lastRole)
  }

  /**
   The value of `lastRole` once the loop has consumed `turns`: the starting
   role, or the role of some input turn that has text.
   */
  function LastRoleAfter(turns: seq<Turn>, lastRole: string): (r: string)
    ensures r == lastRole || exists i :: 0 <= i < |turns| && HasText(turns[i]) && r == turns[i].role
    decreases |turns|
  {
    if |turns| == 0 then
      lastRole
    else if Accepts(lastRole, turns[0]) then
      LastRoleAfter(turns[1..], turns[0].role)
    else
      LastRoleAfter(turns[1..], lastRole)
  }

  /**
   The request handler's normalisation step. A missing or empty `messages`
   list yields NoMessages; otherwise the system entry followed by the
   collapsed turns.
   */
  function Normalize(messages: Option<seq<Turn>>): (r: Forwarding)
    ensures r.NoMessages? <==> messages.None? || |messages.value| == 0
    ensures r.Forward? ==> |r.messages| >= 1 && r.messages[0] == SystemPrompt
    ensures r.Forward? ==> |r.messages| <= |messages.value| + 1
    ensures r.Forward? ==> NoRepeatedRole(r.messages)
  {
    if messages.None? || |messages.value| == 0 then
      NoMessages
    else
      Forward([SystemPrompt] + Collapse(messages.value, System))
  }

  /**
   The normalising loop as the route writes it: one pass with a single
   `lastRole` variable. It computes the same list as the functional model.
   */
  method ForwardMessages(messages: seq<Turn>) returns (chat: seq<ChatMessage>, lastRole: string)
    ensures chat == [SystemPrompt] + Collapse(messages, System)
    ensures lastRole == LastRoleAfter(messages, System)
  {
    chat := [SystemPrompt];
    lastRole := System;
    for i := 0 to |messages|
      invariant chat + Collapse(messages[i..], lastRole) == [SystemPrompt] + Collapse(messages, System)
      invariant LastRoleAfter(messages[i..], lastRole) == LastRoleAfter(messages, System)
    {
      var m := messages[i];
      assert messages[i..][1..] == messages[i + 1..];
      var text := FirstText(m);
      if text.Some? {
        if !Skips(lastRole, m.role) {
          chat := chat + [ChatMessage(m.role, text.value)];
          lastRole := m.role;
        }
      }
    }
    assert messages[|messages|..] == [];
  }

  /** Every turn has text. */
  predicate AllHaveText(turns: seq<Turn>)
  {
    forall i :: 0 <= i < |turns| ==> HasText(turns[i])
  }

  /** The entries of `turns` taken one for one, with nothing dropped. */
  function Messages(turns: seq<Turn>): seq<ChatMessage>
    requires AllHaveText(turns)
  {
    seq(|turns|, i requires 0 <= i < |turns| => MessageOf(turns[i]))
  }

  /** Every turn has text and none repeats the role accepted just before it. */
  predicate ForwardsAll(turns: seq<Turn>, lastRole: string)
  {
    && AllHaveText(turns)
    && (|turns| > 0 ==> !Skips(lastRole, turns[0].role))
    && (forall i :: 0 < i < |turns| ==> !Skips(turns[i - 1].role, turns[i].role))
  }

  /**
   The loop forwards every turn exactly when each has text and none repeats
   its predecessor's role under the skip rule; it then forwards each turn's
   own entry, in order.
   */
  lemma {:induction false} ForwardsAllIff(turns: seq<Turn>, lastRole: string)
    ensures |Collapse(turns, lastRole)| == |turns| <==> ForwardsAll(turns, lastRole)
    ensures ForwardsAll(turns, lastRole) ==>
      AllHaveText(turns) && Collapse(turns, lastRole) == Messages(turns)
    decreases |turns|
  {
    if |turns| > 0 {
      var t := turns[0];
      var rest := turns[1..];
      if Accepts(lastRole, t) {
        ForwardsAllIff(rest, t.role);
        assert ForwardsAll(turns, lastRole) <==> ForwardsAll(rest, t.role) by {
          if ForwardsAll(rest, t.role) {
            forall i | 0 < i < |turns|
              ensures HasText(turns[i]) && !Skips(turns[i - 1].role, turns[i].role)
            {
              assert turns[i] == rest[i - 1];
              if i > 1 {
                assert turns[i - 1] == rest[i - 2];
              }
            }
          }
          if ForwardsAll(turns, lastRole) {
            forall i | 0 <= i < |rest|
              ensures HasText(rest[i])
            {
              assert rest[i] == turns[i + 1];
            }
            forall i | 0 < i < |rest|
              ensures !Skips(rest[i - 1].role, rest[i].role)
            {
              assert rest[i] == turns[i + 1];
              assert rest[i - 1] == turns[i];
            }
          }
        }
        if ForwardsAll(turns, lastRole) {
          assert Messages(turns) == [MessageOf(t)] + Messages(rest);
        }
      } else {
        ForwardsAllIff(rest, lastRole);
        assert |Collapse(turns, lastRole)| < |turns|;
        assert !ForwardsAll(turns, lastRole) by {
          assert !HasText(turns[0]) || Skips(lastRole, turns[0].role);
        }
      }
    }
  }

  /**
   The full-forwarding case in plain terms: when every turn has
   text and no two consecutive turns share a role other than "system", every
   turn is forwarded and the list is one longer than the input.
   */
  lemma AlternatingInputForwardedInFull(turns: seq<Turn>)
    requires |turns| > 0
    requires AllHaveText(turns)
    requires forall i :: 0 <= i < |turns| - 1 ==>
      turns[i].role == turns[i + 1].role ==> turns[i].role == System
    ensures Normalize(Some(turns)) == Forward([SystemPrompt] + Messages(turns))
    ensures |Normalize(Some(turns)).messages| == |turns| + 1
  {
    assert ForwardsAll(turns, System) by {
      forall i | 0 < i < |turns|
        ensures !Skips(turns[i - 1].role, turns[i].role)
      {
        assert turns[i - 1].role == turns[(i - 1) + 1].role ==> turns[i - 1].role == System;
      }
    }
    ForwardsAllIff(turns, System);
  }

  /** `s` shifted one place to the right. */
  function Shift(s: seq<nat>): seq<nat>
  {
    seq(|s|, k requires 0 <= k < |s| => s[k] + 1)
  }

  /**
   For each appended entry, the position of the input turn it came from:
   positions strictly increase, each named turn has text, and the entry is
   that turn's role and text.
   */
  function ForwardedIndices(turns: seq<Turn>, lastRole: string): (idx: seq<nat>)
    ensures |idx| == |Collapse(turns, lastRole)|
    ensures forall k :: 0 <= k < |idx| ==>
      idx[k] < |turns| && HasText(turns[idx[k]]) && Collapse(turns, lastRole)[k] == MessageOf(turns[idx[k]])
    ensures forall k, l :: 0 <= k < l < |idx| ==> idx[k] < idx[l]
    decreases |turns|
  {
    if |turns| == 0 then
      []
    else if Accepts(lastRole, turns[0]) then
      [0] + Shift(ForwardedIndices(turns[1..], turns[0].role))
    else
      Shift(ForwardedIndices(turns[1..], lastRole))
  }

  /**
   `idx` names, for each entry of `out` after the first, the input turn it
   came from: positions strictly increase, each named turn has text, and the
   entry is that turn's role and text.
   */
  predicate TailFrom(turns: seq<Turn>, out: seq<ChatMessage>, idx: seq<nat>)
  {
    && |idx| + 1 == |out|
    && (forall k :: 0 <= k < |idx| ==>
          idx[k] < |turns| && HasText(turns[idx[k]]) && out[k + 1] == MessageOf(turns[idx[k]]))
    && (forall k, l :: 0 <= k < l < |idx| ==> idx[k] < idx[l])
  }

  /**
   Everything after the system entry comes from an input turn with text,
   carries that turn's role and text, and appears in input order: the tail is
   a subsequence of the input.
   */
  lemma ForwardedTailIsSubsequence(turns: seq<Turn>)
    requires |turns| > 0
    ensures exists idx: seq<nat> :: TailFrom(turns, Normalize(Some(turns)).messages, idx)
  {
    var idx := ForwardedIndices(turns, System);
    var c := Collapse(turns, System);
    var out := Normalize(Some(turns)).messages;
    assert out == [SystemPrompt] + c;
    forall k | 0 <= k < |idx|
      ensures idx[k] < |turns| && HasText(turns[idx[k]]) && out[k + 1] == MessageOf(turns[idx[k]])
    {
      assert out[k + 1] == c[k];
    }
    assert TailFrom(turns, out, idx);
  }

  /** When no input turn with text has the empty role, neighbouring entries never share a role other than "system". */
  lemma StrictAlternationWithoutEmptyRoles(turns: seq<Turn>)
    requires |turns| > 0
    requires forall i :: 0 <= i < |turns| && HasText(turns[i]) ==> turns[i].role != ""
    ensures forall k :: 0 <= k < |Normalize(Some(turns)).messages| - 1 ==>
      Normalize(Some(turns)).messages[k].role == Normalize(Some(turns)).messages[k + 1].role ==>
      Normalize(Some(turns)).messages[k].role == System
  {
    var out := Normalize(Some(turns)).messages;
    var idx := ForwardedIndices(turns, System);
    forall k | 0 <= k < |out| - 1 && out[k].role == out[k + 1].role
      ensures out[k].role == System
    {
      if k > 0 {
        assert out[k] == MessageOf(turns[idx[k - 1]]);
        assert out[k].role != "";
      }
    }
  }

  /** The turns that carry text, in order. */
  function WithText(turns: seq<Turn>): seq<Turn>
    decreases |turns|
  {
    if |turns| == 0 then []
    else if HasText(turns[0]) then [turns[0]] + WithText(turns[1..])
    else WithText(turns[1..])
  }

  /**
   A turn without text is never forwarded and does not move `lastRole`:
   removing all such turns changes neither the entries nor the final role.
   */
  lemma {:induction false} TextlessTurnsIgnored(turns: seq<Turn>, lastRole: string)
    ensures Collapse(WithText(turns), lastRole) == Collapse(turns, lastRole)
    ensures LastRoleAfter(WithText(turns), lastRole) == LastRoleAfter(turns, lastRole)
    decreases |turns|
  {
    if |turns| > 0 {
      var t := turns[0];
      if HasText(t) {
        var r := if Accepts(lastRole, t) then t.role else lastRole;
        TextlessTurnsIgnored(turns[1..], r);
        assert ([t] + WithText(turns[1..]))[1..] == WithText(turns[1..]);
      } else {
        TextlessTurnsIgnored(turns[1..], lastRole);
      }
    }
  }

  /** Normalising a concatenation runs the loop over the second part from where the first left `lastRole`. */
  lemma {:induction false} CollapseAppend(a: seq<Turn>, b: seq<Turn>, lastRole: string)
    ensures Collapse(a + b, lastRole) == Collapse(a, lastRole) + Collapse(b, LastRoleAfter(a, lastRole))
    ensures LastRoleAfter(a + b, lastRole) == LastRoleAfter(b, LastRoleAfter(a, lastRole))
    decreases |a|
  {
    if |a| == 0 {
      assert a + b == b;
    } else {
      assert (a + b)[1..] == a[1..] + b;
      if Accepts(lastRole, a[0]) {
        CollapseAppend(a[1..], b, a[0].role);
      } else {
        CollapseAppend(a[1..], b, lastRole);
      }
    }
  }

  /**
   After one more turn, `lastRole` is that turn's role when it has text
   (accepted or skipped as a repeat of that very role), and is unchanged
   otherwise.
   */
  lemma LastRoleStep(turns: seq<Turn>, t: Turn, lastRole: string)
    ensures LastRoleAfter(turns + [t], lastRole) ==
      if HasText(t) then t.role else LastRoleAfter(turns, lastRole)
  {
    CollapseAppend(turns, [t], lastRole);
    assert [t][1..] == [];
  }

  /**
   A turn whose role is the value `lastRole` holds after the loop (a
   non-empty role other than "system") is not forwarded.
   */
  lemma SkippedWhenRepeatingLastRole(turns: seq<Turn>, t: Turn)
    requires |turns| > 0
    requires t.role == LastRoleAfter(turns, System) && t.role != System && t.role != ""
    ensures Normalize(Some(turns + [t])) == Normalize(Some(turns))
  {
    CollapseAppend(turns, [t], System);
  }

  /**
   A turn that repeats the role of the last input turn, when that one has
   text and its role is neither empty nor "system", is not forwarded.
   */
  lemma RepeatedRoleNotForwarded(turns: seq<Turn>, t: Turn)
    requires |turns| > 0 && HasText(turns[|turns| - 1])
    requires t.role == turns[|turns| - 1].role && t.role != System && t.role != ""
    ensures Normalize(Some(turns + [t])) == Normalize(Some(turns))
  {
    var init := turns[..|turns| - 1];
    assert init + [turns[|turns| - 1]] == turns;
    LastRoleStep(init, turns[|turns| - 1], System);
    SkippedWhenRepeatingLastRole(turns, t);
  }

  /** Two consecutive user turns: only the first reaches the model. */
  lemma ConsecutiveUsersCollapse()
    ensures Normalize(Some([TextTurn("1", User, Some("A")), TextTurn("2", User, Some("B"))]))
      == Forward([SystemPrompt, ChatMessage(User, "A")])
  {
    var ts := [TextTurn("1", User, Some("A")), TextTurn("2", User, Some("B"))];
    assert ts[1..][1..] == [];
    assert Collapse(ts[1..], User) == [];
  }

  /** Strictly alternating turns are all forwarded after the system entry. */
  lemma AlternationForwarded()
    ensures Normalize(Some([TextTurn("1", User, Some("A")), TextTurn("2", Assistant, Some("B")), TextTurn("3", User, Some("C"))]))
      == Forward([SystemPrompt, ChatMessage(User, "A"), ChatMessage(Assistant, "B"), ChatMessage(User, "C")])
  {
    var ts := [TextTurn("1", User, Some("A")), TextTurn("2", Assistant, Some("B")), TextTurn("3", User, Some("C"))];
    assert ts[1..][1..][1..] == [];
    assert Collapse(ts[1..][1..], Assistant) == [ChatMessage(User, "C")];
    assert Collapse(ts[1..], User) == [ChatMessage(Assistant, "B"), ChatMessage(User, "C")];
  }

  /** After an accepted turn with the empty role the skip rule is off, so an equal neighbour gets through. */
  lemma EmptyRoleRepeats()
    ensures Normalize(Some([TextTurn("1", "", Some("a")), TextTurn("2", "", Some("b"))]))
      == Forward([SystemPrompt, ChatMessage("", "a"), ChatMessage("", "b")])
  {
  }
}
