/**
 What renaming a complete exchange does and does not change.
 */
module Renames {
  import opened Text
  import opened Messages
  import opened History

  /** The id that stands for `id` after rewriting. */
  function NewId(renamed: Renaming, id: string): string {
    if id in renamed then renamed[id].0 else id
  }

  function NewIds(renamed: Renaming, ids: seq<string>): (r: seq<string>)
    ensures |r| == |ids|
  {
    seq(|ids|, i requires 0 <= i < |ids| => NewId(renamed, ids[i]))
  }

  function CallsRenaming(row: seq<Message>, start: nat, seen: set<string>): Renaming
    requires row != []
  {
    Renamed(ToolCalls(row[0].parts), start, 0, seen)
  }

  /** Claimed ids are new, distinct and nonempty, even when originals look generated. */
  lemma {:induction false} ClaimedIdsAreFresh(calls: seq<ToolCall>, start: nat, k: nat, seen: set<string>)
    requires k <= |calls| && "" !in CallIds(calls)
    ensures var ids := ClaimedIds(calls, start, k, seen);
            Distinct(ids) && Elements(ids) !! seen && "" !in ids
    decreases |calls| - k
  {
    if k < |calls| {
      var id := ClaimId(calls[k].callId, start, k, seen);
      var rest := ClaimedIds(calls, start, k + 1, seen + {id});
      assert CallIds(calls)[k] != "";
      ClaimedIdsAreFresh(calls, start, k + 1, seen + {id});
      assert id !in rest by { assert id !in Elements(rest); }
      DistinctConcat([id], rest);
      ElementsConcat([id], rest);
    }
  }

  /** A call keeps its id exactly when it is renamed to the id it claimed. */
  lemma {:induction false} RenamedAgrees(calls: seq<ToolCall>, start: nat, k: nat, seen: set<string>, j: nat)
    requires k <= j < |calls| && Distinct(CallIds(calls))
    ensures NewId(Renamed(calls, start, k, seen), calls[j].callId) == ClaimedIds(calls, start, k, seen)[j - k]
    ensures calls[j].callId in Renamed(calls, start, k, seen)
            ==> Renamed(calls, start, k, seen)[calls[j].callId].1 == calls[j].fnName
    decreases |calls| - k
  {
    hide ClaimId;
    var ids := CallIds(calls);
    var id := ClaimId(calls[k].callId, start, k, seen);
    if j > k {
      assert ids[k] != ids[j];
      RenamedAgrees(calls, start, k + 1, seen + {id}, j);
    } else {
      RenamedKeys(calls, start, k + 1, seen + {id}, calls[k].callId);
      forall i | k < i < |calls| ensures calls[i].callId != calls[k].callId {
        assert ids[i] != ids[k];
      }
    }
  }

  lemma {:induction false} RenamedKeys(calls: seq<ToolCall>, start: nat, k: nat, seen: set<string>, key: string)
    requires k <= |calls|
    ensures key in Renamed(calls, start, k, seen) ==> exists i :: k <= i < |calls| && calls[i].callId == key
    decreases |calls| - k
  {
    hide ClaimId;
    if k < |calls| {
      var id := ClaimId(calls[k].callId, start, k, seen);
      RenamedKeys(calls, start, k + 1, seen + {id}, key);
    }
  }

  lemma {:induction false} RewritePartsHead(parts: seq<Part>, renamed: Renaming)
    requires parts != []
    ensures RewriteParts(parts, renamed)[0] == RewritePart(parts[0], renamed)
    ensures RewriteParts(parts, renamed)[1..] == RewriteParts(parts[1..], renamed)
  {
  }

  lemma {:induction false} CallIdsCons(call: ToolCall, rest: seq<ToolCall>)
    ensures CallIds([call] + rest) == [call.callId] + CallIds(rest)
  {
  }

  lemma {:induction false} ResponseIdsCons(r: ToolResponse, rest: seq<ToolResponse>)
    ensures ResponseIds([r] + rest) == [r.callId] + ResponseIds(rest)
  {
  }

  lemma {:induction false} NewIdsCons(renamed: Renaming, id: string, rest: seq<string>)
    ensures NewIds(renamed, [id] + rest) == [NewId(renamed, id)] + NewIds(renamed, rest)
  {
  }

  lemma {:induction false} RewrittenCalls(parts: seq<Part>, renamed: Renaming)
    ensures CallIds(ToolCalls(RewriteParts(parts, renamed))) == NewIds(renamed, CallIds(ToolCalls(parts)))
  {
    if parts != [] {
      hide RewriteParts, CallIds, NewIds;
      var calls, calls' := ToolCalls(parts[1..]), ToolCalls(RewriteParts(parts[1..], renamed));
      RewritePartsHead(parts, renamed);
      RewrittenCalls(parts[1..], renamed);
      if parts[0].CallPart? {
        var call := parts[0].call;
        var call' := RewritePart(parts[0], renamed).call;
        CallIdsCons(call, calls);
        CallIdsCons(call', calls');
        NewIdsCons(renamed, call.callId, CallIds(calls));
      } else {
        assert ToolCalls(parts) == calls && ToolCalls(RewriteParts(parts, renamed)) == calls';
      }
    }
  }

  lemma {:induction false} RewrittenResponses(parts: seq<Part>, renamed: Renaming)
    ensures ResponseIds(ToolResponses(RewriteParts(parts, renamed)))
         == NewIds(renamed, ResponseIds(ToolResponses(parts)))
  {
    if parts != [] {
      hide RewriteParts, ResponseIds, NewIds;
      var responses := ToolResponses(parts[1..]);
      var responses' := ToolResponses(RewriteParts(parts[1..], renamed));
      RewritePartsHead(parts, renamed);
      RewrittenResponses(parts[1..], renamed);
      if parts[0].ResponsePart? {
        var r := parts[0].response;
        var r' := RewritePart(parts[0], renamed).response;
        ResponseIdsCons(r, responses);
        ResponseIdsCons(r', responses');
        NewIdsCons(renamed, r.callId, ResponseIds(responses));
      } else {
        assert ToolResponses(parts) == responses && ToolResponses(RewriteParts(parts, renamed)) == responses';
      }
    }
  }

  lemma {:induction false} RewrittenAllParts(row: seq<Message>, renamed: Renaming)
    ensures AllParts(Rewrite(row, renamed)) == RewriteParts(AllParts(row), renamed)
  {
    if row != [] {
      assert Rewrite(row, renamed)[1..] == Rewrite(row[1..], renamed);
      RewrittenAllParts(row[1..], renamed);
    }
  }

  /** Rewriting maps the batch ids and the output ids by the same function. */
  lemma {:induction false} RewrittenIds(row: seq<Message>, renamed: Renaming)
    requires row != []
    ensures BatchIds(Rewrite(row, renamed)) == NewIds(renamed, BatchIds(row))
    ensures OutputIds(Rewrite(row, renamed)) == NewIds(renamed, OutputIds(row))
  {
    RewrittenCalls(row[0].parts, renamed);
    assert Rewrite(row, renamed)[1..] == Rewrite(row[1..], renamed);
    RewrittenAllParts(row[1..], renamed);
    RewrittenResponses(AllParts(row[1..]), renamed);
  }

  lemma {:induction false} DistinctIndex<T>(s: seq<T>, i: nat, j: nat)
    requires Distinct(s) && i < |s| && j < |s| && s[i] == s[j]
    ensures i == j
  {
  }

  /** Distinct calls keep distinct ids, and the new ids are the claimed ones. */
  lemma {:induction false} RenamingOfExchange(row: seq<Message>, start: nat, seen: set<string>)
    requires row != [] && ValidExchange(row)
    ensures NewIds(CallsRenaming(row, start, seen), BatchIds(row))
         == ClaimedIds(ToolCalls(row[0].parts), start, 0, seen)
    ensures forall a, b :: a in BatchIds(row) && b in BatchIds(row)
              && NewId(CallsRenaming(row, start, seen), a) == NewId(CallsRenaming(row, start, seen), b)
              ==> a == b
  {
    hide Renamed, ClaimedIds;
    var calls := ToolCalls(row[0].parts);
    var ids := BatchIds(row);
    var renamed := CallsRenaming(row, start, seen);
    var claimed := ClaimedIds(calls, start, 0, seen);
    forall j | 0 <= j < |calls| ensures NewId(renamed, ids[j]) == claimed[j] {
      RenamedAgrees(calls, start, 0, seen, j);
    }
    ClaimedIdsAreFresh(calls, start, 0, seen);
    forall a, b | a in ids && b in ids && NewId(renamed, a) == NewId(renamed, b) ensures a == b {
      var i :| 0 <= i < |ids| && ids[i] == a;
      var j :| 0 <= j < |ids| && ids[j] == b;
      assert claimed[i] == claimed[j];
      DistinctIndex(claimed, i, j);
    }
  }

  /** Rewriting a complete exchange yields a complete exchange with the claimed ids. */
  lemma {:induction false} RewriteKeepsExchange(row: seq<Message>, start: nat, seen: set<string>)
    requires row != [] && Opens(row[0]) && ValidExchange(row)
    ensures var after := Rewrite(row, CallsRenaming(row, start, seen));
            && Opens(after[0]) && ValidExchange(after)
            && BatchIds(after) == ClaimedIds(ToolCalls(row[0].parts), start, 0, seen)
  {
    hide Renamed, ClaimedIds, NewId, NewIds;
    var renamed := CallsRenaming(row, start, seen);
    var after := Rewrite(row, renamed);
    RewrittenIds(row, renamed);
    RenamingOfExchange(row, start, seen);
    ClaimedIdsAreFresh(ToolCalls(row[0].parts), start, 0, seen);
    assert BatchIds(after) == ClaimedIds(ToolCalls(row[0].parts), start, 0, seen);
    assert |ToolCalls(after[0].parts)| == |BatchIds(after)| == |ToolCalls(row[0].parts)|;
    assert after[1..] == Rewrite(row[1..], renamed);
    RewrittenAllParts(row[1..], renamed);
    assert forall p :: p in after[0].parts ==> !p.ResponsePart? by {
      forall i | 0 <= i < |after[0].parts| ensures !after[0].parts[i].ResponsePart? {
        assert row[0].parts[i] in row[0].parts;
      }
    }
    assert forall p :: p in AllParts(after[1..]) ==> p.ResponsePart? by {
      var outputs := AllParts(row[1..]);
      forall i | 0 <= i < |outputs| ensures RewriteParts(outputs, renamed)[i].ResponsePart? {
        assert outputs[i] in outputs;
      }
    }
    RenamedSameMultiset(BatchIds(row), OutputIds(row), renamed);
  }

  /** Renaming two lists with equal multiplicities by an injective map keeps them equal. */
  lemma {:induction false} RenamedSameMultiset(a: seq<string>, b: seq<string>, renamed: Renaming)
    requires Distinct(a) && multiset(a) == multiset(b)
    requires forall x, y :: x in a && y in a && NewId(renamed, x) == NewId(renamed, y) ==> x == y
    ensures multiset(NewIds(renamed, a)) == multiset(NewIds(renamed, b))
  {
    MultisetDistinct(a, b);
    var na, nb := NewIds(renamed, a), NewIds(renamed, b);
    assert forall x :: x in b ==> x in a by {
      forall x | x in b ensures x in a { assert x in Elements(b); }
    }
    forall i, j | 0 <= i < j < |na| ensures na[i] != na[j] { assert a[i] != a[j]; }
    forall i, j | 0 <= i < j < |nb| ensures nb[i] != nb[j] { assert b[i] != b[j]; }
    NewIdsElements(a, b, renamed);
    NewIdsElements(b, a, renamed);
    SameElementsSameMultiset(na, nb);
  }

  lemma {:induction false} NewIdsElements(a: seq<string>, b: seq<string>, renamed: Renaming)
    requires Elements(a) == Elements(b)
    ensures Elements(NewIds(renamed, a)) <= Elements(NewIds(renamed, b))
  {
    forall x | x in NewIds(renamed, a) ensures x in NewIds(renamed, b) {
      var i :| 0 <= i < |a| && NewId(renamed, a[i]) == x;
      assert a[i] in Elements(b);
      var j :| 0 <= j < |b| && b[j] == a[i];
      assert NewIds(renamed, b)[j] == x;
    }
  }

  // ---------- what a caller sees ----------

  /** The same part up to protocol ids; a response also gains its call's name when renamed. */
  predicate SameButIds(before: Part, after: Part) {
    match before
    case CallPart(c) => after.CallPart? && after.call == c.(callId := after.call.callId)
    case ResponsePart(r) =>
      && after.ResponsePart?
      && after.response.content == r.content
      && (after.response.callId == r.callId ==> after == before)
    case _ => after == before
  }

  predicate IsCall(row: seq<Message>, c: nat) {
    row != [] && c < |row[0].parts| && row[0].parts[c].CallPart?
  }

  predicate IsResponse(row: seq<Message>, m: nat, i: nat) {
    m < |row| && i < |row[m].parts| && row[m].parts[i].ResponsePart?
  }

  /** Response `i` of message `m` answers the call that is part `c` of the assistant message. */
  predicate Answers(row: seq<Message>, c: nat, m: nat, i: nat)
    requires IsCall(row, c) && IsResponse(row, m, i)
  {
    row[0].parts[c].call.callId == row[m].parts[i].response.callId
  }

  /**
   Simultaneous rewriting keeps roles and the order of the parts; each part keeps
   its name, arguments and payload.
   */
  lemma {:induction false} RenamingKeepsContent(row: seq<Message>, start: nat, seen: set<string>, m: nat)
    requires row != [] && Opens(row[0]) && ValidExchange(row) && m < |row|
    ensures var after := Treat(row, start, seen);
            && |after| == |row|
            && after[m].role == row[m].role && |after[m].parts| == |row[m].parts|
            && forall i :: 0 <= i < |row[m].parts| ==> SameButIds(row[m].parts[i], after[m].parts[i])
  {
    forall i | 0 <= i < |row[m].parts|
      ensures SameButIds(row[m].parts[i], Treat(row, start, seen)[m].parts[i])
    {
      if row[m].parts[i].ResponsePart? {
        RenamedToOther(ToolCalls(row[0].parts), start, 0, seen, row[m].parts[i].response.callId);
      }
    }
  }

  /**
   The same responses answer the same calls after rewriting, and a response whose
   id changed carries the name of the call it answers.
   */
  lemma {:induction false} RenamingKeepsAnswers(row: seq<Message>, start: nat, seen: set<string>, c: nat, m: nat,
                                                i: nat)
    requires row != [] && Opens(row[0]) && ValidExchange(row)
    requires IsCall(row, c) && IsResponse(row, m, i)
    ensures var after := Treat(row, start, seen);
            && IsCall(after, c) && IsResponse(after, m, i)
            && (Answers(after, c, m, i) <==> Answers(row, c, m, i))
            && (Answers(row, c, m, i) && after[m].parts[i] != row[m].parts[i]
                ==> after[m].parts[i].response.fnName == Some(row[0].parts[c].call.fnName))
  {
    var calls := ToolCalls(row[0].parts);
    ResponseIsAnswer(row, m, i);
    CallInToolCalls(row[0].parts, row[0].parts[c].call);
    var j :| 0 <= j < |calls| && calls[j] == row[0].parts[c].call;
    assert BatchIds(row)[j] == row[0].parts[c].call.callId;
    RenamedAgrees(calls, start, 0, seen, j);
    RenamingOfExchange(row, start, seen);
    var renamed := CallsRenaming(row, start, seen);
    RewrittenPair(row[0].parts[c].call, row[m].parts[i].response, renamed);
    assert Treat(row, start, seen)[0].parts[c] == RewritePart(row[0].parts[c], renamed);
    assert Treat(row, start, seen)[m].parts[i] == RewritePart(row[m].parts[i], renamed);
  }

  lemma {:induction false} RewrittenPair(call: ToolCall, r: ToolResponse, renamed: Renaming)
    requires NewId(renamed, call.callId) == NewId(renamed, r.callId) ==> call.callId == r.callId
    requires call.callId in renamed ==> renamed[call.callId].1 == call.fnName
    ensures var call', r' := RewritePart(CallPart(call), renamed), RewritePart(ResponsePart(r), renamed);
            && call'.CallPart? && r'.ResponsePart?
            && (call'.call.callId == r'.response.callId <==> call.callId == r.callId)
            && (call.callId == r.callId && r' != ResponsePart(r)
                ==> r'.response.fnName == Some(call.fnName))
  {
  }

  /** A renamed id really changes. */
  lemma {:induction false} RenamedToOther(calls: seq<ToolCall>, start: nat, k: nat, seen: set<string>, id: string)
    requires k <= |calls|
    ensures var r := Renamed(calls, start, k, seen); id in r ==> r[id].0 != id
    decreases |calls| - k
  {
    hide ClaimId;
    if k < |calls| {
      RenamedToOther(calls, start, k + 1, seen + {ClaimId(calls[k].callId, start, k, seen)}, id);
    }
  }

  /** In a complete exchange every response sits in an output message and answers a call. */
  lemma {:induction false} ResponseIsAnswer(row: seq<Message>, m: nat, i: nat)
    requires row != [] && ValidExchange(row)
    requires m < |row| && i < |row[m].parts| && row[m].parts[i].ResponsePart?
    ensures m > 0 && row[m].parts[i].response.callId in BatchIds(row)
  {
    var p := row[m].parts[i];
    assert p in row[m].parts;
    var outputs := row[1..];
    assert outputs[m - 1] == row[m];
    PartInAllParts(outputs, m - 1, p);
    ResponseInToolResponses(AllParts(outputs), p.response);
    var k :| 0 <= k < |ToolResponses(AllParts(outputs))| && ToolResponses(AllParts(outputs))[k] == p.response;
    assert OutputIds(row)[k] == p.response.callId;
    assert p.response.callId in multiset(OutputIds(row));
  }

  lemma {:induction false} PartInAllParts(ms: seq<Message>, m: nat, p: Part)
    requires m < |ms| && p in ms[m].parts
    ensures p in AllParts(ms)
  {
    if m > 0 {
      assert ms[1..][m - 1] == ms[m];
      PartInAllParts(ms[1..], m - 1, p);
    }
  }

  lemma {:induction false} ResponseInToolResponses(parts: seq<Part>, r: ToolResponse)
    requires ResponsePart(r) in parts
    ensures r in ToolResponses(parts)
  {
    if parts[0] != ResponsePart(r) {
      assert parts == [parts[0]] + parts[1..];
      ResponseInToolResponses(parts[1..], r);
    }
  }
}
