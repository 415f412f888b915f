/** Chat messages, and when a list of them is one a provider accepts: every assistant
    message with tool calls is followed by exactly their results, in order. */
module Transcript {
  import opened Common

  datatype ToolCall = ToolCall(id: string, name: string, arguments: string)

  datatype Message =
    | System(content: string)
    | User(content: string)
    | Assistant(content: string, toolCalls: seq<ToolCall>)
    | Tool(callId: string, content: string)

  datatype Response = Response(content: string, toolCalls: seq<ToolCall>, promptTokens: int, completionTokens: int)

  function Ids(calls: seq<ToolCall>): (ids: seq<string>)
    ensures |ids| == |calls|
  {
    seq(|calls|, i requires 0 <= i < |calls| => calls[i].id)
  }

  /** The results still owed after `m`, when `owed` are owed before it. */
  function Expect(owed: seq<string>, m: Message): Option<seq<string>> {
    if owed != [] then
      if m.Tool? && m.callId == owed[0] then Some(owed[1..]) else None
    else if m.Tool? then None
    else if m.Assistant? then Some(Ids(m.toolCalls))
    else Some([])
  }

  function Scan(owed: seq<string>, msgs: seq<Message>): Option<seq<string>>
    decreases msgs
  {
    if msgs == [] then Some(owed)
    else match Expect(owed, msgs[0])
      case None => None
      case Some(owed') => Scan(owed', msgs[1..])
  }

  predicate WellFormed(msgs: seq<Message>) { Scan([], msgs) == Some([]) }

  lemma {:induction false} ScanConcat(owed: seq<string>, xs: seq<Message>, ys: seq<Message>)
    ensures Scan(owed, xs + ys) ==
      match Scan(owed, xs) case None => None case Some(owed') => Scan(owed', ys)
    decreases xs
  {
    if xs == [] {
      assert xs + ys == ys;
    } else {
      assert (xs + ys)[0] == xs[0] && (xs + ys)[1..] == xs[1..] + ys;
      match Expect(owed, xs[0])
      case None =>
      case Some(owed') => ScanConcat(owed', xs[1..], ys);
    }
  }

  lemma {:induction false} WellFormedConcat(xs: seq<Message>, ys: seq<Message>)
    requires WellFormed(xs)
    ensures WellFormed(xs + ys) <==> WellFormed(ys)
  {
    ScanConcat([], xs, ys);
  }

  // ----- the same, by position -----

  /** The message `k` places after the one behind `i` is the result of call `k` of message `i`. */
  predicate Answers(msgs: seq<Message>, i: nat, k: nat)
    requires i + 1 + k < |msgs| && msgs[i].Assistant? && k < |msgs[i].toolCalls|
  {
    msgs[i + 1 + k].Tool? && msgs[i + 1 + k].callId == msgs[i].toolCalls[k].id
  }

  /** The calls of the assistant message at `i` are answered right after it. */
  predicate AnsweredAt(msgs: seq<Message>, i: nat)
    requires i < |msgs|
  {
    msgs[i].Assistant? ==>
      && i + |msgs[i].toolCalls| < |msgs|
      && forall k :: 0 <= k < |msgs[i].toolCalls| ==> Answers(msgs, i, k)
  }

  /** The result at `j` answers a call of the assistant message at `i`. */
  predicate OwnedBy(msgs: seq<Message>, i: nat, j: nat)
    requires j < |msgs|
  {
    i < j && msgs[i].Assistant? && j <= i + |msgs[i].toolCalls|
  }

  ghost predicate ByPosition(msgs: seq<Message>) {
    && (forall i :: 0 <= i < |msgs| ==> AnsweredAt(msgs, i))
    && (forall j :: 0 <= j < |msgs| && msgs[j].Tool? ==> exists i :: 0 <= i < j && OwnedBy(msgs, i, j))
  }

  /** Owed results come first, and the rest is well formed. */
  lemma {:induction false} OwedFirst(owed: seq<string>, msgs: seq<Message>)
    requires Scan(owed, msgs) == Some([])
    ensures |owed| <= |msgs| && WellFormed(msgs[|owed|..])
    ensures forall k :: 0 <= k < |owed| ==> msgs[k].Tool? && msgs[k].callId == owed[k]
    decreases msgs
  {
    if owed == [] {
      assert msgs[0..] == msgs;
    } else {
      OwedFirst(owed[1..], msgs[1..]);
      assert msgs[1..][|owed| - 1..] == msgs[|owed|..];
    }
  }

  lemma {:induction false} PayOwed(owed: seq<string>, msgs: seq<Message>)
    requires |owed| <= |msgs| && WellFormed(msgs[|owed|..])
    requires forall k :: 0 <= k < |owed| ==> msgs[k].Tool? && msgs[k].callId == owed[k]
    ensures Scan(owed, msgs) == Some([])
    decreases msgs
  {
    if owed == [] {
      assert msgs[0..] == msgs;
    } else {
      assert msgs[1..][|owed| - 1..] == msgs[|owed|..];
      forall k | 0 <= k < |owed[1..]|
        ensures msgs[1..][k].Tool? && msgs[1..][k].callId == owed[1..][k]
      {
        assert msgs[1..][k] == msgs[k + 1];
      }
      PayOwed(owed[1..], msgs[1..]);
    }
  }

  lemma {:induction false} AnsweredShift(msgs: seq<Message>, n: nat, i: nat, at: nat)
    requires at == n + i < |msgs|
    ensures AnsweredAt(msgs[n..], i) <==> AnsweredAt(msgs, at)
  {
    var rest := msgs[n..];
    assert rest[i] == msgs[at];
    if msgs[at].Assistant? && at + |msgs[at].toolCalls| < |msgs| {
      forall k | 0 <= k < |msgs[at].toolCalls|
        ensures Answers(msgs, at, k) <==> Answers(rest, i, k)
      {
        assert rest[i + 1 + k] == msgs[at + 1 + k];
      }
    }
  }

  /** Cutting a leading message and its results off a list leaves positions as they were. */
  lemma {:induction false} DropBlock(msgs: seq<Message>, n: nat)
    requires 0 < n <= |msgs|
    requires forall i :: 0 < i < n ==> msgs[i].Tool?
    requires msgs[0].Assistant? ==> |msgs[0].toolCalls| < n
    ensures ByPosition(msgs) ==> ByPosition(msgs[n..])
  {
    var rest := msgs[n..];
    if ByPosition(msgs) {
      forall i | 0 <= i < |rest|
        ensures AnsweredAt(rest, i)
      {
        AnsweredShift(msgs, n, i, n + i);
      }
      forall j | 0 <= j < |rest| && rest[j].Tool?
        ensures exists i :: 0 <= i < j && OwnedBy(rest, i, j)
      {
        var i :| 0 <= i < n + j && OwnedBy(msgs, i, n + j);
        assert OwnedBy(rest, i - n, j);
      }
    }
  }

  /** WellFormed says, by position: every assistant message with n tool calls is followed by
      exactly its n results in order, and every result belongs to such a message. */
  lemma {:induction false} WellFormedByPosition(msgs: seq<Message>)
    ensures WellFormed(msgs) <==> ByPosition(msgs)
    decreases |msgs|
  {
    if msgs == [] {
    } else if msgs[0].Tool? {
    } else {
      var owed := if msgs[0].Assistant? then Ids(msgs[0].toolCalls) else [];
      var n := 1 + |owed|;
      if WellFormed(msgs) {
        OwedFirst(owed, msgs[1..]);
        assert msgs[1..][|owed|..] == msgs[n..];
        WellFormedByPosition(msgs[n..]);
        AddBlock(msgs, n);
      }
      if ByPosition(msgs) {
        assert AnsweredAt(msgs, 0);
        forall k | 0 <= k < |owed|
          ensures msgs[1 + k].Tool? && msgs[1 + k].callId == owed[k]
        {
          assert Answers(msgs, 0, k);
        }
        assert forall k :: 0 <= k < |owed| ==> msgs[1..][k] == msgs[1 + k];
        forall i | 0 < i < n
          ensures msgs[i].Tool?
        {
          assert Answers(msgs, 0, i - 1);
        }
        DropBlock(msgs, n);
        WellFormedByPosition(msgs[n..]);
        assert msgs[1..][|owed|..] == msgs[n..];
        PayOwed(owed, msgs[1..]);
      }
    }
  }

  lemma {:induction false} AddBlock(msgs: seq<Message>, n: nat)
    requires 0 < n <= |msgs| && !msgs[0].Tool? && ByPosition(msgs[n..])
    requires forall i :: 0 < i < n ==> msgs[i].Tool?
    requires if msgs[0].Assistant? then n == 1 + |msgs[0].toolCalls| && AnsweredAt(msgs, 0) else n == 1
    ensures ByPosition(msgs)
  {
    var rest := msgs[n..];
    forall i | 0 <= i < |msgs|
      ensures AnsweredAt(msgs, i)
    {
      if i >= n {
        AnsweredShift(msgs, n, i - n, i);
      }
    }
    forall j | 0 <= j < |msgs| && msgs[j].Tool?
      ensures exists i :: 0 <= i < j && OwnedBy(msgs, i, j)
    {
      if j < n {
        assert OwnedBy(msgs, 0, j);
      } else {
        var i :| 0 <= i < j - n && OwnedBy(rest, i, j - n);
        assert OwnedBy(msgs, i + n, j);
      }
    }
  }

  // ----- compression -----

  /** Dropping all but the last messages and putting a summary in their place. */
  function Compacted(msgs: seq<Message>, cut: nat, summary: Message): seq<Message>
    requires 0 < cut <= |msgs|
  {
    [msgs[0], summary] + msgs[cut..]
  }

  /** A compacted list is well formed if and only if the cut does not fall inside a block,
      that is, the first message kept is not a tool result. */
  lemma {:induction false} CompactedIsWellFormedExactlyWhen(msgs: seq<Message>, cut: nat, summary: Message)
    requires WellFormed(msgs) && 0 < cut < |msgs| && msgs[0].System? && summary.System?
    ensures WellFormed(Compacted(msgs, cut, summary)) <==> !msgs[cut].Tool?
  {
    var kept := msgs[cut..];
    assert msgs == msgs[..cut] + kept;
    ScanConcat([], msgs[..cut], kept);
    var heads := [msgs[0], summary];
    assert heads[1..] == [summary] && [summary][1..] == [];
    assert Scan([], [summary]) == Scan([], []);
    assert Scan([], heads) == Scan([], [summary]);
    WellFormedConcat(heads, kept);
    assert kept[0] == msgs[cut];
  }
}
