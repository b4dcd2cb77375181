/** `_attach_reasoning_to_payload`: reasoning of the source messages, set in place on the outgoing ones. */
module ReasoningPayload {
  import opened Strings

  /** `rest` stands for the other keys of the dictionary. */
  datatype OutMessage = NotADict | Dict(role: string, reasoning: Option<string>, rest: int)

  /** An AI message with its `reasoning_content`, or a message of any other kind. */
  datatype SourceMessage = AI(reasoning: Option<string>) | Other

  predicate Assistant(m: OutMessage) {
    m.Dict? && m.role == "assistant"
  }

  function Assistants(messages: seq<OutMessage>): nat {
    if messages == [] then 0
    else Assistants(messages[..|messages| - 1]) + if Assistant(messages[|messages| - 1]) then 1 else 0
  }

  /** The reasoning of the AI messages, in their order. */
  function Reasonings(source: seq<SourceMessage>): seq<Option<string>> {
    if source == [] then []
    else if source[0].AI? then [source[0].reasoning] + Reasonings(source[1..])
    else Reasonings(source[1..])
  }

  /** An absent or empty reasoning sets nothing. */
  function With(m: OutMessage, reasoning: Option<string>): OutMessage {
    if m.Dict? && reasoning.Some? && reasoning.value != "" then m.(reasoning := reasoning) else m
  }

  /** The j-th assistant entry carries the reasoning of the j-th AI message; every other entry is as it was. */
  function Aligned(messages: seq<OutMessage>, source: seq<SourceMessage>, i: nat): OutMessage
    requires i < |messages|
  {
    var j := Assistants(messages[..i]);
    if Assistant(messages[i]) && j < |Reasonings(source)| then With(messages[i], Reasonings(source)[j]) else messages[i]
  }

  lemma {:induction false} AssistantsGrow(messages: seq<OutMessage>, i: nat, j: nat)
    requires i <= j <= |messages|
    ensures Assistants(messages[..i]) <= Assistants(messages[..j])
  {
    if i >= j {
    } else {
      assert messages[..j][..j - 1] == messages[..j - 1];
      AssistantsGrow(messages, i, j - 1);
    }
  }

  lemma AssistantsNext(messages: seq<OutMessage>, i: nat)
    requires i < |messages|
    ensures Assistants(messages[..i + 1]) == Assistants(messages[..i]) + if Assistant(messages[i]) then 1 else 0
  {
    assert messages[..i + 1][..i] == messages[..i];
  }

  /** The inner loop: past every message that is not an AI message. */
  method SkipToAI(source: seq<SourceMessage>, start: nat) returns (i: nat)
    requires start <= |source|
    ensures start <= i <= |source| && (i < |source| ==> source[i].AI?)
    ensures Reasonings(source[i..]) == Reasonings(source[start..])
  {
    i := start;
    while i < |source| && !source[i].AI?
      invariant start <= i <= |source|
      invariant Reasonings(source[i..]) == Reasonings(source[start..])
    {
      assert source[i..][1..] == source[i + 1..];
      i := i + 1;
    }
  }

  /** The reasonings from `i` on are those still due when the first `n` entries are done. */
  ghost predicate Due(messages: seq<OutMessage>, source: seq<SourceMessage>, n: nat, i: nat)
    requires n <= |messages| && i <= |source|
  {
    var j, reasonings := Assistants(messages[..n]), Reasonings(source);
    j <= |reasonings| && Reasonings(source[i..]) == reasonings[j..]
  }

  lemma NextIsDue(messages: seq<OutMessage>, source: seq<SourceMessage>, n: nat, i: nat)
    requires n < |messages| && Assistant(messages[n])
    requires i < |source| && source[i].AI? && Due(messages, source, n, i)
    ensures Aligned(messages, source, n) == With(messages[n], source[i].reasoning)
    ensures Due(messages, source, n + 1, i + 1)
  {
    AssistantsNext(messages, n);
    assert source[i..][0] == source[i] && source[i..][1..] == source[i + 1..];
    var j, reasonings := Assistants(messages[..n]), Reasonings(source);
    assert reasonings[j..] == [source[i].reasoning] + Reasonings(source[i + 1..]);
    assert reasonings[j..][0] == reasonings[j] && reasonings[j..][1..] == reasonings[j + 1..];
  }

  lemma NoneIsDue(messages: seq<OutMessage>, source: seq<SourceMessage>, n: nat, k: nat)
    requires n <= k < |messages| && Due(messages, source, n, |source|)
    ensures Aligned(messages, source, k) == messages[k]
  {
    AssistantsGrow(messages, n, k);
    assert source[|source|..] == [];
  }

  method AttachReasoning(messages: array<OutMessage>, source: seq<SourceMessage>)
    modifies messages
    ensures forall i :: 0 <= i < messages.Length ==> messages[i] == Aligned(old(messages[..]), source, i)
  {
    ghost var was := messages[..];
    var aiIndex := 0;
    assert source[0..] == source;
    for n := 0 to messages.Length
      invariant aiIndex <= |source| && Due(was, source, n, aiIndex)
      invariant forall i :: 0 <= i < n ==> messages[i] == Aligned(was, source, i)
      invariant forall i :: n <= i < messages.Length ==> messages[i] == was[i]
    {
      AssistantsNext(was, n);
      if !Assistant(messages[n]) {
        continue;
      }
      aiIndex := SkipToAI(source, aiIndex);
      if aiIndex >= |source| {
        forall k | n <= k < messages.Length
          ensures Aligned(was, source, k) == was[k]
        {
          NoneIsDue(was, source, n, k);
        }
        break;
      }
      NextIsDue(was, source, n, aiIndex);
      var reasoning := source[aiIndex].reasoning;
      aiIndex := aiIndex + 1;
      if reasoning.Some? && reasoning.value != "" {
        messages[n] := messages[n].(reasoning := reasoning);
      }
    }
  }

  lemma {:induction false} AssistantIndex(messages: seq<OutMessage>, j: nat) returns (i: nat)
    requires j < Assistants(messages)
    ensures i < |messages| && Assistant(messages[i]) && Assistants(messages[..i]) == j
  {
    var n := |messages| - 1;
    if j < Assistants(messages[..n]) {
      i := AssistantIndex(messages[..n], j);
      assert messages[..n][..i] == messages[..i];
    } else {
      i := n;
    }
  }

  /** No reasoning is lost while there are assistant entries left, and none is used twice. */
  lemma EveryReasoningOnce(messages: seq<OutMessage>, source: seq<SourceMessage>, j: nat) returns (i: nat)
    requires j < |Reasonings(source)| && j < Assistants(messages)
    ensures i < |messages| && Assistant(messages[i])
    ensures Aligned(messages, source, i) == With(messages[i], Reasonings(source)[j])
    ensures forall k :: 0 <= k < |messages| && Assistant(messages[k]) && k != i ==> Assistants(messages[..k]) != j
  {
    i := AssistantIndex(messages, j);
    forall k | 0 <= k < |messages| && Assistant(messages[k]) && k != i
      ensures Assistants(messages[..k]) != j
    {
      if k < i {
        AssistantsNext(messages, k);
        AssistantsGrow(messages, k + 1, i);
      } else {
        AssistantsNext(messages, i);
        AssistantsGrow(messages, i + 1, k);
      }
    }
  }

  /** The entries whose reasoning changes are assistant entries, and nothing else of them changes. */
  lemma OnlyReasoningChanges(messages: seq<OutMessage>, source: seq<SourceMessage>, i: nat)
    requires i < |messages| && Aligned(messages, source, i) != messages[i]
    ensures Assistant(messages[i])
    ensures Aligned(messages, source, i).Dict? && Aligned(messages, source, i).role == "assistant"
    ensures Aligned(messages, source, i).rest == messages[i].rest
    ensures Aligned(messages, source, i).reasoning.Some?
            && Some(Aligned(messages, source, i).reasoning.value) in Reasonings(source)
  {
    var j := Assistants(messages[..i]);
    assert Reasonings(source)[j] in Reasonings(source);
  }

  /** A reasoning that is there and not empty is what the entry then carries; otherwise the entry stays as it is. */
  lemma ReasoningIsSet(messages: seq<OutMessage>, source: seq<SourceMessage>, i: nat)
    requires i < |messages| && messages[i].Dict? && messages[i].role == "assistant"
    requires Assistants(messages[..i]) < |Reasonings(source)|
    ensures var given := Reasonings(source)[Assistants(messages[..i])];
            && (given.Some? && given.value != "" ==> Aligned(messages, source, i) == messages[i].(reasoning := given))
            && (given.None? || given.value == "" ==> Aligned(messages, source, i) == messages[i])
  {
  }

  /**
   * The reasonings are those of the AI messages: before each stand as many as there are AI messages before
   * its own.
   */
  lemma {:induction false} ReasoningAt(source: seq<SourceMessage>, k: nat)
    requires k < |source| && source[k].AI?
    ensures |Reasonings(source[..k])| < |Reasonings(source)|
    ensures Reasonings(source)[|Reasonings(source[..k])|] == source[k].reasoning
  {
    if k == 0 {
    } else {
      ReasoningAt(source[1..], k - 1);
      assert source[1..][..k - 1] == source[..k][1..];
    }
  }

  lemma {:induction false} ReasoningCount(source: seq<SourceMessage>)
    ensures |Reasonings(source)| == |set k | 0 <= k < |source| && source[k].AI?|
  {
    if source == [] {
    } else {
      var n := |source| - 1;
      var before := source[..n];
      ReasoningCount(before);
      ReasoningsLast(source);
      var all, rest := set k | 0 <= k < |source| && source[k].AI?, set k | 0 <= k < n && before[k].AI?;
      assert all == if source[n].AI? then rest + {n} else rest;
    }
  }

  lemma {:induction false} ReasoningsLast(source: seq<SourceMessage>)
    requires source != []
    ensures var n := |source| - 1;
            Reasonings(source) == Reasonings(source[..n]) + if source[n].AI? then [source[n].reasoning] else []
  {
    if |source| == 1 {
    } else {
      var n := |source| - 1;
      ReasoningsLast(source[1..]);
      assert source[1..][..n - 1] == source[..n][1..];
      assert source[1..][n - 1] == source[n];
    }
  }
}
