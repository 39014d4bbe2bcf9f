/**
 Zulip private conversations: the conversation id is the sorted, comma-joined list
 of participants, and sending splits it again.
 */
module ZulipAddress {
  import opened Text

  datatype Recipient = Recipient(email: string, id: int)

  /** The order of strings: by character, a proper prefix first. */
  predicate Before(a: string, b: string) {
    if a == "" then true
    else b != "" && (a[0] < b[0] || (a[0] == b[0] && Before(a[1..], b[1..])))
  }

  lemma {:induction false} BeforeTotal(a: string, b: string)
    ensures Before(a, b) || Before(b, a)
    ensures Before(a, b) && Before(b, a) ==> a == b
  {
    if a != "" && b != "" && a[0] == b[0] {
      BeforeTotal(a[1..], b[1..]);
      assert a == [a[0]] + a[1..] && b == [b[0]] + b[1..];
    }
  }

  lemma {:induction false} BeforeTransitive(a: string, b: string, c: string)
    requires Before(a, b) && Before(b, c)
    ensures Before(a, c)
  {
    if a != "" && a[0] == b[0] == c[0] {
      BeforeTransitive(a[1..], b[1..], c[1..]);
    }
  }

  predicate Sorted(s: seq<string>) {
    forall i, j :: 0 <= i < j < |s| ==> Before(s[i], s[j])
  }

  function Insert(x: string, s: seq<string>): seq<string> {
    if s == [] || Before(x, s[0]) then [x] + s else [s[0]] + Insert(x, s[1..])
  }

  /** `sort`. */
  function Sort(s: seq<string>): seq<string> {
    if s == [] then [] else Insert(s[0], Sort(s[1..]))
  }

  lemma {:induction false} InsertSorted(x: string, s: seq<string>)
    requires Sorted(s)
    ensures Sorted(Insert(x, s)) && multiset(Insert(x, s)) == multiset{x} + multiset(s)
  {
    if s == [] {
    } else if Before(x, s[0]) {
      forall j | 0 < j < |s| ensures Before(x, s[j]) {
        BeforeTransitive(x, s[0], s[j]);
      }
    } else {
      InsertSorted(x, s[1..]);
      BeforeTotal(x, s[0]);
      assert s == [s[0]] + s[1..];
      InsertBounded(x, s);
    }
  }

  lemma {:induction false} InsertBounded(x: string, s: seq<string>)
    requires Sorted(s) && s != [] && Before(s[0], x)
    requires multiset(Insert(x, s[1..])) == multiset{x} + multiset(s[1..]) && Sorted(Insert(x, s[1..]))
    ensures Sorted([s[0]] + Insert(x, s[1..]))
  {
    var rest := Insert(x, s[1..]);
    forall j | 0 <= j < |rest| ensures Before(s[0], rest[j]) {
      assert rest[j] in multiset(rest);
      if rest[j] != x {
        assert rest[j] in s[1..];
      }
    }
  }

  lemma {:induction false} SortSorts(s: seq<string>)
    ensures Sorted(Sort(s)) && multiset(Sort(s)) == multiset(s)
  {
    if s != [] {
      SortSorts(s[1..]);
      InsertSorted(s[0], Sort(s[1..]));
      assert s == [s[0]] + s[1..];
    }
  }

  lemma {:induction false} FirstIsLeast(a: seq<string>, x: string)
    requires Sorted(a) && x in multiset(a)
    ensures a != [] && Before(a[0], x)
  {
    var i :| 0 <= i < |a| && a[i] == x;
    BeforeTotal(x, x);
  }

  lemma {:induction false} NoneLeft<T>(a: seq<T>, b: seq<T>)
    requires a == [] && multiset(a) == multiset(b)
    ensures b == []
  {
    assert |multiset(b)| == |b|;
  }

  lemma {:induction false} RemoveAt<T>(s: seq<T>, i: nat)
    requires i < |s|
    ensures multiset(s[..i] + s[i + 1..]) == multiset(s) - multiset{s[i]}
    ensures i == 0 ==> multiset(s[1..]) == multiset(s) - multiset{s[0]}
  {
    assert s == s[..i] + ([s[i]] + s[i + 1..]);
    assert i == 0 ==> s[..i] + s[i + 1..] == s[1..];
  }

  /** A list has one sorted arrangement. */
  lemma {:induction false} SortedUnique(a: seq<string>, b: seq<string>)
    requires Sorted(a) && Sorted(b) && multiset(a) == multiset(b)
    ensures a == b
  {
    if a == [] {
      NoneLeft(a, b);
    } else {
      assert a[0] in multiset(b);
      FirstIsLeast(b, a[0]);
      assert b[0] in multiset(a);
      FirstIsLeast(a, b[0]);
      BeforeTotal(a[0], b[0]);
      RemoveAt(a, 0);
      RemoveAt(b, 0);
      SortedTail(a);
      SortedTail(b);
      hide Sorted, Before;
      SortedUnique(a[1..], b[1..]);
      SameHeadAndTail(a, b);
    }
  }

  lemma {:induction false} SameHeadAndTail<T>(a: seq<T>, b: seq<T>)
    requires a != [] && b != [] && a[0] == b[0] && a[1..] == b[1..]
    ensures a == b
  {
    assert a == [a[0]] + a[1..] && b == [b[0]] + b[1..];
  }

  lemma {:induction false} SortedTail(s: seq<string>)
    requires Sorted(s) && s != []
    ensures Sorted(s[1..])
  {
  }

  // ---------- the conversation id ----------

  /** `join(",")`. */
  function Join(parts: seq<string>): string {
    if parts == [] then "" else if |parts| == 1 then parts[0] else parts[0] + "," + Join(parts[1..])
  }

  /** The emails of the recipients other than the bot. */
  function Others(recipients: seq<Recipient>, botEmail: string, botId: Option<int>): seq<string> {
    if recipients == [] then []
    else
      var r := recipients[0];
      (if Some(r.id) != botId && r.email != botEmail then [r.email] else []) + Others(recipients[1..], botEmail, botId)
  }

  /** Everybody but the bot, or the sender when nobody is left. */
  function Participants(recipients: seq<Recipient>, sender: string, botEmail: string, botId: Option<int>)
    : (ps: seq<string>)
    ensures ps != []
  {
    var others := Others(recipients, botEmail, botId);
    if others == [] then [sender] else others
  }

  function PrivateAddress(recipients: seq<Recipient>, sender: string, botEmail: string, botId: Option<int>): string {
    Join(Sort(Participants(recipients, sender, botEmail, botId)))
  }

  method ResolvePrivateAddress(recipients: seq<Recipient>, sender: string, botEmail: string, botId: Option<int>)
    returns (conversationId: string)
    ensures conversationId == PrivateAddress(recipients, sender, botEmail, botId)
    ensures forall listed :: multiset(listed) == multiset(recipients)
              ==> conversationId == PrivateAddress(listed, sender, botEmail, botId)
    ensures var everybody := Participants(recipients, sender, botEmail, botId);
            Emails(conversationId) == Sort(everybody) <==> AllDeliverable(everybody)
  {
    var participants := Others(recipients, botEmail, botId);
    if participants == [] {
      participants := participants + [sender];
      assert participants == [sender];
    }
    participants := Sort(participants);
    conversationId := Join(participants);
    SendReachesParticipants(recipients, sender, botEmail, botId);
    forall listed | multiset(listed) == multiset(recipients)
      ensures conversationId == PrivateAddress(listed, sender, botEmail, botId)
    {
      AddressIsCanonical(recipients, listed, sender, botEmail, botId);
    }
  }

  /** An entry of the bot itself, by address or by id. */
  predicate IsBot(r: Recipient, botEmail: string, botId: Option<int>) {
    r.email == botEmail || (botId.Some? && r.id == botId.value)
  }

  /** Everybody is among the others but the bot, in the order listed, and nobody else is. */
  lemma {:induction false} OthersAreTheRest(recipients: seq<Recipient>, botEmail: string, botId: Option<int>, e: string)
    ensures e in Others(recipients, botEmail, botId)
       <==> exists r :: r in recipients && !IsBot(r, botEmail, botId) && r.email == e
    ensures botEmail !in Others(recipients, botEmail, botId)
    ensures (forall r :: r in recipients ==> !IsBot(r, botEmail, botId)) ==>
              |Others(recipients, botEmail, botId)| == |recipients|
  {
    if recipients != [] {
      OthersAreTheRest(recipients[1..], botEmail, botId, e);
      assert recipients == [recipients[0]] + recipients[1..];
      assert recipients[0] in recipients && forall r :: r in recipients[1..] ==> r in recipients;
    }
  }

  lemma {:induction false} OthersPermuted(a: seq<Recipient>, b: seq<Recipient>, botEmail: string, botId: Option<int>)
    requires multiset(a) == multiset(b)
    ensures multiset(Others(a, botEmail, botId)) == multiset(Others(b, botEmail, botId))
  {
    if a == [] {
      NoneLeft(a, b);
    } else {
      hide Others;
      var i, rest := RemoveSame(a, b);
      OthersPermuted(a[1..], rest, botEmail, botId);
      OthersWithout(a, 0, a[1..], botEmail, botId);
      OthersWithout(b, i, rest, botEmail, botId);
    }
  }

  /** Take the first of one list out of a permutation of it. */
  lemma {:induction false} RemoveSame<T>(a: seq<T>, b: seq<T>) returns (i: nat, rest: seq<T>)
    requires a != [] && multiset(a) == multiset(b)
    ensures i < |b| && b[i] == a[0] && rest == b[..i] + b[i + 1..] && multiset(a[1..]) == multiset(rest)
  {
    assert a[0] in multiset(b);
    i :| 0 <= i < |b| && b[i] == a[0];
    RemoveAt(a, 0);
    rest := b[..i] + b[i + 1..];
    RemoveAt(b, i);
  }

  lemma {:induction false} OthersWithout(s: seq<Recipient>, i: nat, rest: seq<Recipient>, botEmail: string,
                                         botId: Option<int>)
    requires i < |s| && rest == s[..i] + s[i + 1..]
    ensures multiset(Others(s, botEmail, botId))
            == multiset(Others(rest, botEmail, botId)) + multiset(Others([s[i]], botEmail, botId))
  {
    hide Others;
    assert s == s[..i] + ([s[i]] + s[i + 1..]);
    OthersConcat(s[..i], [s[i]] + s[i + 1..], botEmail, botId);
    OthersConcat([s[i]], s[i + 1..], botEmail, botId);
    OthersConcat(s[..i], s[i + 1..], botEmail, botId);
  }

  lemma {:induction false} OthersConcat(a: seq<Recipient>, b: seq<Recipient>, botEmail: string, botId: Option<int>)
    ensures Others(a + b, botEmail, botId) == Others(a, botEmail, botId) + Others(b, botEmail, botId)
  {
    if a == [] {
      assert a + b == b;
    } else {
      assert (a + b)[0] == a[0] && (a + b)[1..] == a[1..] + b;
      OthersConcat(a[1..], b, botEmail, botId);
    }
  }

  /** The order in which the server lists the recipients does not matter. */
  lemma {:induction false} AddressIsCanonical(a: seq<Recipient>, b: seq<Recipient>, sender: string, botEmail: string,
                                              botId: Option<int>)
    requires multiset(a) == multiset(b)
    ensures PrivateAddress(a, sender, botEmail, botId) == PrivateAddress(b, sender, botEmail, botId)
  {
    OthersPermuted(a, b, botEmail, botId);
    var others, permuted := Others(a, botEmail, botId), Others(b, botEmail, botId);
    assert |others| == |multiset(others)| == |multiset(permuted)| == |permuted|;
    SortSorts(Participants(a, sender, botEmail, botId));
    SortSorts(Participants(b, sender, botEmail, botId));
    SortedUnique(Sort(Participants(a, sender, botEmail, botId)), Sort(Participants(b, sender, botEmail, botId)));
  }

  // ---------- splitting it for sending ----------

  /** `split(',')`. */
  function SplitCommas(s: string): (pieces: seq<string>)
    ensures pieces != []
  {
    if s == "" then [""]
    else
      var rest := SplitCommas(s[1..]);
      if s[0] == ',' then [""] + rest else [[s[0]] + rest[0]] + rest[1..]
  }

  /** Each piece trimmed, the empty ones left out. */
  function Cleaned(pieces: seq<string>): seq<string> {
    if pieces == [] then []
    else (if Trim(pieces[0]) == "" then [] else [Trim(pieces[0])]) + Cleaned(pieces[1..])
  }

  /** Whom a private message is sent to. */
  function Emails(conversationId: string): seq<string> {
    Cleaned(SplitCommas(conversationId))
  }

  predicate Deliverable(email: string) {
    email != "" && ',' !in email && Trimmed(email)
  }

  predicate AllDeliverable(emails: seq<string>) {
    forall i :: 0 <= i < |emails| ==> Deliverable(emails[i])
  }

  lemma {:induction false} SplitPiece(p: string, rest: string)
    requires ',' !in p
    ensures SplitCommas(p) == [p]
    ensures SplitCommas(p + "," + rest) == [p] + SplitCommas(rest)
  {
    var s := p + "," + rest;
    if p == "" {
      assert s[1..] == rest;
    } else {
      assert s[0] == p[0] && s[1..] == p[1..] + "," + rest;
      SplitPiece(p[1..], rest);
      assert p == [p[0]] + p[1..];
    }
  }

  lemma {:induction false} SplitJoined(parts: seq<string>)
    requires parts != [] && forall i :: 0 <= i < |parts| ==> ',' !in parts[i]
    ensures SplitCommas(Join(parts)) == parts
  {
    if |parts| == 1 {
      SplitPiece(parts[0], "");
    } else {
      SplitJoined(parts[1..]);
      SplitPiece(parts[0], Join(parts[1..]));
      assert parts == [parts[0]] + parts[1..];
    }
  }

  lemma {:induction false} CleanedUnchanged(pieces: seq<string>)
    requires AllDeliverable(pieces)
    ensures Cleaned(pieces) == pieces
  {
    if pieces != [] {
      TrimTrims(pieces[0]);
      CleanedUnchanged(pieces[1..]);
      assert pieces == [pieces[0]] + pieces[1..];
    }
  }

  lemma {:induction false} SplitCommaFree(s: string)
    ensures forall i :: 0 <= i < |SplitCommas(s)| ==> ',' !in SplitCommas(s)[i]
  {
    if s != "" {
      SplitCommaFree(s[1..]);
    }
  }

  lemma {:induction false} CleanedDeliverable(pieces: seq<string>)
    requires forall i :: 0 <= i < |pieces| ==> ',' !in pieces[i]
    ensures AllDeliverable(Cleaned(pieces))
  {
    if pieces != [] {
      TrimTrims(pieces[0]);
      CleanedDeliverable(pieces[1..]);
    }
  }

  /** Joining and splitting give the participants back exactly when each email is nonempty, comma-free and trimmed. */
  lemma {:induction false} SplitUndoesJoin(parts: seq<string>)
    requires parts != []
    ensures Emails(Join(parts)) == parts <==> AllDeliverable(parts)
  {
    if AllDeliverable(parts) {
      SplitJoined(parts);
      CleanedUnchanged(parts);
    }
    SplitCommaFree(Join(parts));
    CleanedDeliverable(SplitCommas(Join(parts)));
  }

  /** A message to a private conversation goes to each of its participants once, in order. */
  lemma {:induction false} SendReachesParticipants(recipients: seq<Recipient>, sender: string, botEmail: string,
                                                   botId: Option<int>)
    ensures var participants := Participants(recipients, sender, botEmail, botId);
            var sent := Emails(PrivateAddress(recipients, sender, botEmail, botId));
            sent == Sort(participants) <==> AllDeliverable(participants)
  {
    var participants := Participants(recipients, sender, botEmail, botId);
    SortSorts(participants);
    SameDeliverable(participants, Sort(participants));
    SplitUndoesJoin(Sort(participants));
  }

  lemma {:induction false} SameDeliverable(a: seq<string>, b: seq<string>)
    requires multiset(a) == multiset(b)
    ensures AllDeliverable(a) <==> AllDeliverable(b)
    ensures a != [] ==> b != []
  {
    assert forall p :: p in a <==> p in multiset(a);
    assert forall p :: p in b <==> p in multiset(b);
    assert AllDeliverable(a) <==> forall p :: p in a ==> Deliverable(p);
    assert AllDeliverable(b) <==> forall p :: p in b ==> Deliverable(p);
    if a != [] {
      assert a[0] in multiset(b);
    }
  }

  /** Different groups of participants never share a conversation. */
  lemma {:induction false} AddressesAreDistinct(a: seq<string>, b: seq<string>)
    requires a != [] && b != [] && AllDeliverable(a) && AllDeliverable(b)
    requires Join(Sort(a)) == Join(Sort(b))
    ensures multiset(a) == multiset(b)
  {
    SortSorts(a);
    SortSorts(b);
    SameDeliverable(a, Sort(a));
    SameDeliverable(b, Sort(b));
    SplitUndoesJoin(Sort(a));
    SplitUndoesJoin(Sort(b));
  }
}
