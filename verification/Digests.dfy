/** Digest reconciliation: what a client that reports its rules is told to change. */
module Digests {
  import opened Common
  import opened Text
  import opened Rules
  import RuleIndex
  import opened Admission
  import opened Sample

  /** A rule by application code and rule id; what a party holds of it is its revision and checksum. */
  type Key = (string, string)
  type Entry = (string, string)
  type Book = map<Key, Entry>

  const BLANK: Entry := ("", "")

  function EntryOf(d: Digest): Entry {
    (d.revision, d.checksum)
  }

  function KeyOf(d: Digest): Key {
    (d.applicationCode, d.ruleId)
  }

  /** A client digest without an application code belongs to the application of the session. */
  function ClientKey(code: string, d: Digest): Key {
    (Choose(d.applicationCode, code), d.ruleId)
  }

  lemma ClientKeyExactly(code: string, d: Digest)
    ensures !Blank(d.applicationCode) ==> ClientKey(code, d) == (Trim(d.applicationCode), d.ruleId)
    ensures Blank(d.applicationCode) ==> ClientKey(code, d) == (Trim(code), d.ruleId)
  {
  }

  /** What the client holds after its first `n` digests. */
  function Client(code: string, digests: seq<Digest>, n: nat): Book
    requires n <= |digests|
  {
    if n == 0 then map[] else Client(code, digests, n - 1)[ClientKey(code, digests[n - 1]) := EntryOf(digests[n - 1])]
  }

  function DigestOf(rule: Rule): Digest {
    Digest(rule.applicationCode, rule.ruleID, rule.Revision(), rule.checksum)
  }

  /** The server's answer about one rule; blank revision and checksum if it has no such rule. */
  function ServerDigest(s: Snapshot, key: Key): Digest {
    match FindRule(s, key.0, key.1)
    case None => Digest(key.0, key.1, "", "")
    case Some(rule) => DigestOf(rule)
  }

  function At(book: Book, key: Key): Option<Entry> {
    if key in book then Some(book[key]) else None
  }

  function Held(s: Snapshot, key: Key): Option<Entry> {
    match FindRule(s, key.0, key.1)
    case None => None
    case Some(rule) => Some(EntryOf(DigestOf(rule)))
  }

  /** What the client ought to hold: all rules of the session's application, and every other rule it asked about. */
  function Due(s: Snapshot, code: string, client: Book, key: Key): Option<Entry> {
    if key.0 == code || key in client then Held(s, key) else None
  }

  predicate Differs(s: Snapshot, code: string, client: Book, key: Key) {
    At(client, key) != Due(s, code, client, key)
  }

  /** The client applies `n` changed digests in order; a blank one deletes. */
  function Patch(book: Book, changed: seq<Digest>, n: nat): Book
    requires n <= |changed|
  {
    if n == 0 then book
    else
      var before, d := Patch(book, changed, n - 1), changed[n - 1];
      if EntryOf(d) == BLANK then before - {KeyOf(d)} else before[KeyOf(d) := EntryOf(d)]
  }

  // ---------------------------------------------------------------- the report

  /** Rules sit under their own application code and id, as the index invariant says. */
  ghost predicate InPlace(s: Snapshot) {
    forall code, id :: code in s.apps && id in s.apps[code].rules ==>
      s.apps[code].rules[id].applicationCode == code && s.apps[code].rules[id].ruleID == id
  }

  lemma WellFormedInPlace(decode: Decoder, s: Snapshot)
    requires RuleIndex.WellFormed(decode, s)
    ensures InPlace(s)
  {
    hide RuleIndex.WellFormed;
    forall code, id | code in s.apps && id in s.apps[code].rules
      ensures s.apps[code].rules[id].applicationCode == code && s.apps[code].rules[id].ruleID == id
    {
      RuleIndex.IndexInvariant(decode, s, code);
      assert RuleIndex.RuleInPlace(s.apps[code], id);
    }
  }

  /** The client reports no rule twice, and no application code holds the separator of the seen keys. */
  ghost predicate Distinct(code: string, digests: seq<Digest>) {
    && (forall i, j :: 0 <= i < j < |digests| ==> ClientKey(code, digests[i]) != ClientKey(code, digests[j]))
    && (forall i :: 0 <= i < |digests| ==> '\0' !in ClientKey(code, digests[i]).0)
    && '\0' !in code
  }

  function SeenKey(key: Key): string {
    key.0 + "\0" + key.1
  }

  lemma SeenKeyInjective(a: Key, b: Key)
    requires '\0' !in a.0 && '\0' !in b.0 && SeenKey(a) == SeenKey(b)
    ensures a == b
  {
    SplitUnique('\0', a.0, a.1, b.0, b.1);
  }

  ghost predicate Mentions(changed: seq<Digest>, key: Key) {
    exists i :: 0 <= i < |changed| && KeyOf(changed[i]) == key
  }

  /** The changed digests are the server's answers on exactly the rules where client and server differ. */
  ghost predicate Reports(s: Snapshot, code: string, client: Book, changed: seq<Digest>) {
    && (forall i :: 0 <= i < |changed| ==> changed[i] == ServerDigest(s, KeyOf(changed[i])))
    && (forall key :: Mentions(changed, key) <==> Differs(s, code, client, key))
  }

  lemma {:induction false} ClientHolds(code: string, digests: seq<Digest>, n: nat, i: nat)
    requires i < n <= |digests| && Distinct(code, digests)
    ensures At(Client(code, digests, n), ClientKey(code, digests[i])) == Some(EntryOf(digests[i]))
  {
    hide ClientKey, EntryOf;
    if i < n - 1 {
      ClientHolds(code, digests, n - 1, i);
    }
  }

  lemma {:induction false} ClientSource(code: string, digests: seq<Digest>, n: nat, key: Key) returns (i: nat)
    requires n <= |digests| && key in Client(code, digests, n)
    ensures i < n && ClientKey(code, digests[i]) == key
  {
    if ClientKey(code, digests[n - 1]) == key {
      i := n - 1;
    } else {
      i := ClientSource(code, digests, n - 1, key);
    }
  }

  lemma MentionsNext(changed: seq<Digest>, d: Digest)
    ensures forall key :: Mentions(changed + [d], key) <==> Mentions(changed, key) || KeyOf(d) == key
  {
    assert (changed + [d])[|changed|] == d;
    forall key | Mentions(changed, key)
      ensures Mentions(changed + [d], key)
    {
      var i :| 0 <= i < |changed| && KeyOf(changed[i]) == key;
      assert (changed + [d])[i] == changed[i];
    }
  }

  lemma InClient(code: string, digests: seq<Digest>, key: Key)
    requires Distinct(code, digests)
    ensures key in Client(code, digests, |digests|) <==>
      exists i :: 0 <= i < |digests| && ClientKey(code, digests[i]) == key
  {
    hide ClientKey, Distinct, Client;
    if key in Client(code, digests, |digests|) {
      var i := ClientSource(code, digests, |digests|, key);
    }
    if i :| 0 <= i < |digests| && ClientKey(code, digests[i]) == key {
      ClientHolds(code, digests, |digests|, i);
    }
  }

  /** Some digest of the client names the rule and does not hold what the server holds. */
  ghost predicate Stale(s: Snapshot, code: string, digests: seq<Digest>, n: nat, key: Key)
    requires n <= |digests|
  {
    exists i :: 0 <= i < n && ClientKey(code, digests[i]) == key && Held(s, key) != Some(EntryOf(digests[i]))
  }

  /** A rule of the session's application whose seen key no digest of the client has. */
  ghost predicate Unmentioned(s: Snapshot, code: string, digests: seq<Digest>, key: Key) {
    && key.0 == code && code in s.apps && key.1 in s.apps[code].rules
    && forall i :: 0 <= i < |digests| ==> SeenKey(ClientKey(code, digests[i])) != SeenKey(key)
  }

  ghost predicate AllAnswers(s: Snapshot, changed: seq<Digest>) {
    forall i :: 0 <= i < |changed| ==> changed[i] == ServerDigest(s, KeyOf(changed[i]))
  }

  lemma StaleNext(s: Snapshot, code: string, digests: seq<Digest>, n: nat)
    requires n < |digests|
    ensures forall key :: Stale(s, code, digests, n + 1, key) <==>
      || Stale(s, code, digests, n, key)
      || (ClientKey(code, digests[n]) == key && Held(s, key) != Some(EntryOf(digests[n])))
  {
    hide ClientKey, Held, EntryOf;
    forall key | Stale(s, code, digests, n + 1, key) &&
      !(ClientKey(code, digests[n]) == key && Held(s, key) != Some(EntryOf(digests[n])))
      ensures Stale(s, code, digests, n, key)
    {
      var i :| 0 <= i < n + 1 && ClientKey(code, digests[i]) == key && Held(s, key) != Some(EntryOf(digests[i]));
      assert i < n;
    }
    forall key | Stale(s, code, digests, n, key)
      ensures Stale(s, code, digests, n + 1, key)
    {
      var i :| 0 <= i < n && ClientKey(code, digests[i]) == key && Held(s, key) != Some(EntryOf(digests[i]));
    }
  }

  lemma StaleAt(s: Snapshot, key: Key, d: Digest)
    ensures Held(s, key) != Some(EntryOf(d)) <==>
      match FindRule(s, key.0, key.1)
      case None => true
      case Some(rule) => d.revision != rule.Revision() || d.checksum != rule.checksum
  {
    hide Rule.Revision;
  }

  /**
   `changedDigests`: first the client's digests in order, then the rules of the session's application
   that the client did not mention, in no particular order.
   */
  method ChangedDigests(s: Snapshot, code: string, digests: seq<Digest>) returns (changed: seq<Digest>)
    ensures InPlace(s) ==> AllAnswers(s, changed)
    ensures InPlace(s) ==> forall key :: Mentions(changed, key) <==>
      Stale(s, code, digests, |digests|, key) || Unmentioned(s, code, digests, key)
  {
    hide Choose, SeenKey, Rule.Revision, Stale, Mentions, Held;
    ghost var proper := InPlace(s);
    changed := [];
    var seen: set<string> := {};
    NothingYet(s, code, digests);
    for n := 0 to |digests|
      invariant seen == set i | 0 <= i < n :: SeenKey(ClientKey(code, digests[i]))
      invariant proper ==> AllAnswers(s, changed)
      invariant proper ==> forall key :: Mentions(changed, key) <==> Stale(s, code, digests, n, key)
    {
      var key := ClientKey(code, digests[n]);
      seen := seen + {SeenKey(key)};
      ghost var before := changed;
      var rule := FindRule(s, key.0, key.1);
      if rule == None {
        changed := changed + [Digest(key.0, key.1, "", "")];
      } else if digests[n].revision != rule.value.Revision() || digests[n].checksum != rule.value.checksum {
        changed := changed + [DigestOf(rule.value)];
      }
      if proper {
        StaleNext(s, code, digests, n);
        StaleAt(s, key, digests[n]);
        MentionsNext(before, ServerDigest(s, key));
      }
    }
    var todo := if code in s.apps then s.apps[code].rules.Keys else {};
    while todo != {}
      invariant code in s.apps ==> todo <= s.apps[code].rules.Keys
      invariant code !in s.apps ==> todo == {}
      invariant proper ==> AllAnswers(s, changed)
      invariant proper ==> forall key :: Mentions(changed, key) <==>
        || Stale(s, code, digests, |digests|, key)
        || (Unmentioned(s, code, digests, key) && !(key.0 == code && key.1 in todo))
      decreases todo
    {
      var id :| id in todo;
      todo := todo - {id};
      var rule := s.apps[code].rules[id];
      ghost var before := changed;
      if SeenKey((rule.applicationCode, rule.ruleID)) !in seen {
        changed := changed + [DigestOf(rule)];
      }
      if proper {
        assert Unmentioned(s, code, digests, (code, id)) <==> SeenKey((code, id)) !in seen;
        MentionsNext(before, DigestOf(rule));
      }
    }
  }

  lemma NothingYet(s: Snapshot, code: string, digests: seq<Digest>)
    ensures forall key :: !Mentions([], key) && !Stale(s, code, digests, 0, key)
  {
  }

  /** If the client repeats no rule, the report names exactly the rules where client and server differ. */
  lemma DistinctReports(s: Snapshot, code: string, digests: seq<Digest>, changed: seq<Digest>)
    requires Distinct(code, digests) && AllAnswers(s, changed)
    requires forall key :: Mentions(changed, key) <==>
      Stale(s, code, digests, |digests|, key) || Unmentioned(s, code, digests, key)
    ensures Reports(s, code, Client(code, digests, |digests|), changed)
  {
    hide ClientKey, Client, Mentions, EntryOf, Held, Stale, Unmentioned, Distinct;
    var client := Client(code, digests, |digests|);
    forall key
      ensures Mentions(changed, key) <==> Differs(s, code, client, key)
    {
      DiffersExactly(s, code, digests, key);
    }
  }

  lemma DiffersExactly(s: Snapshot, code: string, digests: seq<Digest>, key: Key)
    requires Distinct(code, digests)
    ensures Differs(s, code, Client(code, digests, |digests|), key) <==>
      Stale(s, code, digests, |digests|, key) || Unmentioned(s, code, digests, key)
  {
    hide ClientKey, Client, EntryOf, SeenKey;
    var client := Client(code, digests, |digests|);
    InClient(code, digests, key);
    if key in client {
      var i :| 0 <= i < |digests| && ClientKey(code, digests[i]) == key;
      ClientHolds(code, digests, |digests|, i);
      assert !Unmentioned(s, code, digests, key);
      forall j | 0 <= j < |digests| && ClientKey(code, digests[j]) == key
        ensures digests[j] == digests[i]
      {
      }
    } else {
      forall i | 0 <= i < |digests| && key.0 == code
        ensures SeenKey(ClientKey(code, digests[i])) != SeenKey(key)
      {
        if SeenKey(ClientKey(code, digests[i])) == SeenKey(key) {
          SeenKeyInjective(ClientKey(code, digests[i]), key);
        }
      }
    }
  }

  // ---------------------------------------------------------------- reconciliation

  lemma {:induction false} PatchedAt(s: Snapshot, book: Book, changed: seq<Digest>, n: nat, key: Key)
    requires n <= |changed| && forall i :: 0 <= i < |changed| ==> changed[i] == ServerDigest(s, KeyOf(changed[i]))
    ensures At(Patch(book, changed, n), key) ==
      if Mentions(changed[..n], key)
      then (if EntryOf(ServerDigest(s, key)) == BLANK then None else Some(EntryOf(ServerDigest(s, key))))
      else At(book, key)
  {
    hide ServerDigest, Mentions;
    if n > 0 {
      PatchedAt(s, book, changed, n - 1, key);
      MentionsNext(changed[..n - 1], changed[n - 1]);
      assert changed[..n] == changed[..n - 1] + [changed[n - 1]];
    } else {
      NothingMentioned(changed[..0], key);
    }
  }

  lemma NothingMentioned(changed: seq<Digest>, key: Key)
    requires changed == []
    ensures !Mentions(changed, key)
  {
  }

  /**
   Nothing is reported exactly if client and server agree; and a client that applies the report ends
   up with what it ought to hold exactly if it already holds every due rule whose revision and
   checksum are both blank, since a blank digest reads as a delete.
   */
  lemma Reconciles(s: Snapshot, code: string, client: Book, changed: seq<Digest>)
    requires Reports(s, code, client, changed)
    ensures changed == [] <==> forall key :: At(client, key) == Due(s, code, client, key)
    ensures (forall key :: At(Patch(client, changed, |changed|), key) == Due(s, code, client, key)) <==>
            (forall key :: Due(s, code, client, key) == Some(BLANK) ==> At(client, key) == Some(BLANK))
  {
    if changed != [] {
      assert Mentions(changed, KeyOf(changed[0]));
      assert Differs(s, code, client, KeyOf(changed[0]));
    } else {
      forall key
        ensures At(client, key) == Due(s, code, client, key)
      {
        assert !Mentions(changed, key);
      }
    }
    forall key
      ensures At(Patch(client, changed, |changed|), key) == Due(s, code, client, key) <==>
              (Due(s, code, client, key) == Some(BLANK) ==> At(client, key) == Some(BLANK))
    {
      PatchedAt(s, client, changed, |changed|, key);
      assert changed[..|changed|] == changed;
    }
  }

  /** A rule of version zero without a checksum never reaches the client: its digest reads as a delete. */
  lemma BlankRuleLost()
    ensures var s := SnapshotSample(0, "");
            var changed := [Digest("a", "r", "", "")];
            && Reports(s, "a", map[], changed)
            && Due(s, "a", map[], ("a", "r")) == Some(BLANK) && Patch(map[], changed, 1) == map[]
  {
    var s := SnapshotSample(0, "");
    var changed := [Digest("a", "r", "", "")];
    assert RuleSample(0, "").Revision() == "";
    assert changed[0] == ServerDigest(s, ("a", "r"));
    forall key
      ensures Mentions(changed, key) <==> Differs(s, "a", map[], key)
    {
      assert key == (key.0, key.1);
      if key == ("a", "r") {
        assert KeyOf(changed[0]) == key;
      }
    }
    assert Patch(map[], changed, 0) == map[];
  }

  /** Every rule of a snapshot with a version of its own has a revision, so nothing reads as a delete. */
  lemma ReconcilesStamped(s: Snapshot, code: string, client: Book, changed: seq<Digest>)
    requires Reports(s, code, client, changed)
    requires forall app, id :: app in s.apps && id in s.apps[app].rules ==>
      s.apps[app].rules[id].snapshotVersion != 0 && IsInt64(s.apps[app].rules[id].snapshotVersion)
    ensures forall key :: At(Patch(client, changed, |changed|), key) == Due(s, code, client, key)
  {
    hide Reports, Rule.Revision, Patch;
    forall key
      ensures Due(s, code, client, key) != Some(BLANK)
    {
      if FindRule(s, key.0, key.1).Some? {
        RevisionParses(FindRule(s, key.0, key.1).value);
      }
    }
    Reconciles(s, code, client, changed);
  }

  /** The server's own book of one application. */
  function ServerBook(s: Snapshot, code: string): Book {
    if code !in s.apps then map[]
    else map id | id in s.apps[code].rules :: (code, id) := EntryOf(DigestOf(s.apps[code].rules[id]))
  }

  /** A client of one application that reports all it holds is led to exactly the server's rules of it. */
  lemma ReconcilesOneApplication(s: Snapshot, code: string, client: Book, changed: seq<Digest>)
    requires Reports(s, code, client, changed) && forall key :: key in client ==> key.0 == code
    requires forall id :: code in s.apps && id in s.apps[code].rules ==>
      EntryOf(DigestOf(s.apps[code].rules[id])) != BLANK
    ensures Patch(client, changed, |changed|) == ServerBook(s, code)
    ensures changed == [] <==> client == ServerBook(s, code)
  {
    hide Reports, Rule.Revision, Patch;
    Reconciles(s, code, client, changed);
    forall key
      ensures Due(s, code, client, key) == At(ServerBook(s, code), key)
    {
    }
    SameBook(Patch(client, changed, |changed|), ServerBook(s, code));
    SameBook(client, ServerBook(s, code));
  }

  lemma SameBook(a: Book, b: Book)
    ensures a == b <==> forall key :: At(a, key) == At(b, key)
  {
    if forall key :: At(a, key) == At(b, key) {
      assert forall key :: key in a ==> At(b, key) == Some(a[key]);
      assert forall key :: key in b ==> At(a, key) == Some(b[key]);
    }
  }
}
