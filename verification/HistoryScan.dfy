/**
 The loops of `history_units`, each proved to compute its specification in
 module History.
 */
module HistoryScan {
  import opened Text
  import opened Messages
  import opened History

  /** Call ids must be nonempty and new; only nonempty ids are recorded. */
  method CheckBatch(calls: seq<ToolCall>) returns (valid: bool, expected: set<string>)
    ensures valid <==> "" !in CallIds(calls) && Distinct(CallIds(calls))
    ensures valid ==> expected == Elements(CallIds(calls))
  {
    ghost var ids := CallIds(calls);
    expected := {};
    valid := true;
    for i := 0 to |calls|
      invariant expected == Elements(ids[..i]) - {""}
      invariant valid <==> "" !in ids[..i] && Distinct(ids[..i])
    {
      assert ids[..i + 1] == ids[..i] + [ids[i]];
      DistinctConcat(ids[..i], [ids[i]]);
      ElementsConcat(ids[..i], [ids[i]]);
      var id := calls[i].callId;
      valid := valid && id != "" && id !in expected;
      if id != "" {
        expected := expected + {id};
      }
    }
    assert ids[..|calls|] == ids;
  }

  /** Each output must answer an expected id for the first time. */
  method CheckOutputs(parts: seq<Part>, expected: set<string>) returns (valid: bool, answered: set<string>)
    ensures valid <==> (forall p :: p in parts ==> p.ResponsePart?)
                       && Distinct(ResponseIds(ToolResponses(parts)))
                       && Elements(ResponseIds(ToolResponses(parts))) <= expected
    ensures answered == Elements(ResponseIds(ToolResponses(parts)))
  {
    hide Distinct, Elements, ResponseIds, ToolResponses;
    NoIds();
    answered := {};
    valid := true;
    ghost var out: seq<string> := [];
    for i := 0 to |parts|
      invariant out == ResponseIds(ToolResponses(parts[..i]))
      invariant answered == Elements(out)
      invariant valid <==> (forall p :: p in parts[..i] ==> p.ResponsePart?)
                           && Distinct(out) && Elements(out) <= expected
    {
      assert parts[..i + 1] == parts[..i] + [parts[i]];
      OneMorePart(parts[..i], parts[i]);
      if parts[i].ResponsePart? {
        var id := parts[i].response.callId;
        DistinctConcat(out, [id]);
        ElementsConcat(out, [id]);
        valid := valid && id in expected && id !in answered;
        answered := answered + {id};
        out := out + [id];
      } else {
        valid := false;
      }
    }
    assert parts[..|parts|] == parts;
  }

  lemma {:induction false} NoIds()
    ensures Distinct<string>([]) && Elements<string>([]) == {} && ResponseIds(ToolResponses([])) == []
    ensures forall id: string :: Distinct([id]) && Elements([id]) == {id}
  {
  }

  method CheckExchange(row: seq<Message>) returns (valid: bool)
    requires row != []
    ensures valid == ValidExchange(row)
  {
    var batchOk, expected := CheckBatch(ToolCalls(row[0].parts));
    var headOk := !exists p :: p in row[0].parts && p.ResponsePart?;
    var outputsOk, answered := CheckOutputs(AllParts(row[1..]), expected);
    valid := batchOk && headOk && outputsOk && answered == expected;
    if valid {
      SameElementsSameMultiset(OutputIds(row), BatchIds(row));
    } else if ValidExchange(row) {
      MultisetDistinct(BatchIds(row), OutputIds(row));
    }
  }

  lemma {:induction false} ToolResponsesConcat(a: seq<Part>, b: seq<Part>)
    ensures ToolResponses(a + b) == ToolResponses(a) + ToolResponses(b)
  {
    if a == [] {
      assert a + b == b;
    } else {
      ConcatHead(a, b);
      ToolResponsesConcat(a[1..], b);
      ConcatAssociates(if a[0].ResponsePart? then [a[0].response] else [], ToolResponses(a[1..]), ToolResponses(b));
    }
  }

  lemma {:induction false} ResponseIdsConcat(a: seq<ToolResponse>, b: seq<ToolResponse>)
    ensures ResponseIds(a + b) == ResponseIds(a) + ResponseIds(b)
  {
  }

  /** One more part adds its response id, if it has one. */
  lemma {:induction false} OneMorePart(parts: seq<Part>, p: Part)
    ensures ResponseIds(ToolResponses(parts + [p]))
         == ResponseIds(ToolResponses(parts)) + if p.ResponsePart? then [p.response.callId] else []
  {
    ToolResponsesConcat(parts, [p]);
    ResponseIdsConcat(ToolResponses(parts), ToolResponses([p]));
    assert ToolResponses([p]) == if p.ResponsePart? then [p.response] else [];
    assert p.ResponsePart? ==> ResponseIds([p.response]) == [p.response.callId];
  }

  /** The search for a name that no id has used: it ends because `seen` is finite. */
  method FindFreshId(start: nat, ordinal: nat, seen: set<string>) returns (candidate: string)
    ensures candidate == FreshId(start, ordinal, 0, seen)
  {
    candidate := Candidate(start, ordinal, 0);
    var suffix := 0;
    while candidate in seen
      invariant candidate == Candidate(start, ordinal, suffix)
      invariant forall j :: 0 <= j < suffix ==> Candidate(start, ordinal, j) in seen
      invariant FreshId(start, ordinal, suffix, seen) == FreshId(start, ordinal, 0, seen)
      decreases |seen| + 1 - suffix
    {
      TakenSuffixesBounded(start, ordinal, suffix + 1, seen);
      suffix := suffix + 1;
      candidate := Candidate(start, ordinal, suffix);
    }
  }

  method RenameReused(calls: seq<ToolCall>, start: nat, seen: set<string>)
    returns (renamed: Renaming, after: set<string>)
    ensures renamed == Renamed(calls, start, 0, seen)
    ensures after == seen + Elements(ClaimedIds(calls, start, 0, seen))
  {
    renamed := map[];
    after := seen;
    for ordinal := 0 to |calls|
      invariant renamed + Renamed(calls, start, ordinal, after) == Renamed(calls, start, 0, seen)
      invariant after + Elements(ClaimedIds(calls, start, ordinal, after))
             == seen + Elements(ClaimedIds(calls, start, 0, seen))
    {
      var call := calls[ordinal];
      ClaimStep(calls, start, ordinal, after, renamed);
      if call.callId in after {
        var candidate := FindFreshId(start, ordinal, after);
        after := after + {candidate};
        renamed := renamed[call.callId := (candidate, call.fnName)];
      } else {
        after := after + {call.callId};
      }
    }
  }

  lemma {:induction false} ClaimStep(calls: seq<ToolCall>, start: nat, k: nat, seen: set<string>, m: Renaming)
    requires k < |calls|
    ensures var call := calls[k];
            var id := ClaimId(call.callId, start, k, seen);
            && seen + Elements(ClaimedIds(calls, start, k, seen))
               == seen + {id} + Elements(ClaimedIds(calls, start, k + 1, seen + {id}))
            && m + Renamed(calls, start, k, seen)
               == (if id == call.callId then m else m[call.callId := (id, call.fnName)])
                  + Renamed(calls, start, k + 1, seen + {id})
  {
    var id := ClaimId(calls[k].callId, start, k, seen);
    var rest := Renamed(calls, start, k + 1, seen + {id});
    if id == calls[k].callId {
      assert map[] + rest == rest;
    } else {
      InsertThenMerge(m, calls[k].callId, (id, calls[k].fnName), rest);
    }
    ClaimedSet(id, ClaimedIds(calls, start, k + 1, seen + {id}), seen);
  }

  lemma {:induction false} InsertThenMerge<K, V>(m: map<K, V>, k: K, v: V, rest: map<K, V>)
    ensures m + (map[k := v] + rest) == m[k := v] + rest
  {
  }

  lemma {:induction false} ClaimedSet<T>(id: T, rest: seq<T>, seen: set<T>)
    ensures seen + Elements([id] + rest) == seen + {id} + Elements(rest)
  {
  }

  /** The scan itself. */
  method ScanUnits(messages: seq<Message>) returns (units: seq<Unit>)
    ensures units == HistoryUnits(messages)
  {
    hide Treat, SeenAfter;
    units := [];
    var seen: set<string> := {};
    var index := 0;
    while index < |messages|
      invariant 0 <= index <= |messages|
      invariant units + UnitsFrom(messages, index, seen) == HistoryUnits(messages)
    {
      var start := index;
      var message := messages[index];
      index := index + 1;
      if message.role == Assistant && ToolCalls(message.parts) != [] {
        while index < |messages| && messages[index].role == Tool
          invariant start < index <= |messages|
          invariant RunEnd(messages, index) == RunEnd(messages, start + 1)
        {
          index := index + 1;
        }
      }
      var row := messages[start..index];
      assert index == UnitEnd(messages, start);
      var retained, after := TreatRow(row, start, seen);
      UnitStep(messages, start, seen, units);
      units := units + [Unit(start, index, retained)];
      seen := after;
    }
  }

  /** The body of one iteration, once the rows of the unit are known. */
  method TreatRow(row: seq<Message>, start: nat, seen: set<string>)
    returns (retained: seq<Message>, after: set<string>)
    requires row != [] && (!Opens(row[0]) ==> |row| == 1)
    ensures retained == Treat(row, start, seen)
    ensures after == SeenAfter(row, start, seen)
  {
    after := seen;
    var calls := ToolCalls(row[0].parts);
    if row[0].role == Assistant && calls != [] {
      var valid := CheckExchange(row);
      if valid {
        var renamed;
        renamed, after := RenameReused(calls, start, seen);
        retained := Rewrite(row, renamed);
      } else {
        retained := HistoricalTexts(row);
      }
    } else {
      var protocolOutside := row[0].role == Tool || HasProtocol(row[0].parts);
      retained := [if protocolOutside then HistoricalText(row[0]) else row[0]];
    }
  }

  lemma {:induction false} UnitStep(ms: seq<Message>, i: nat, seen: set<string>, done: seq<Unit>)
    requires i < |ms|
    ensures var e := UnitEnd(ms, i);
            var row := ms[i..e];
            done + UnitsFrom(ms, i, seen)
            == done + [Unit(i, e, Treat(row, i, seen))] + UnitsFrom(ms, e, SeenAfter(row, i, seen))
  {
  }
}
