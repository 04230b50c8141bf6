/**
Suppression in one workspace: the list of addresses and domains, the consent flags of the leads, the
checker every dispatch goes through, and the automated writers (CRM sync, CRM webhook, inbound
opt-outs, additions to the list).
*/
module Suppression {
  import opened Options
  import opened Text
  import opened CrmRecords

  datatype Entry = Entry(email: Option<string>, domain: Option<string>)

  datatype Lead = Lead(recordId: string, optOut: bool, doNotContact: bool)

  // Leads are unique by address within the workspace.
  datatype Db = Db(entries: seq<Entry>, leads: map<string, Lead>)

  // ----- The checker -----

  datatype Verdict = Clear | Suppressed | Raised  // Raised: the query expected one row and met several

  function DomainOf(address: string): string { Norm(AfterLastAt(address)) }

  predicate Matches(entry: Entry, address: string) {
    entry.email == Some(address) || entry.domain == Some(DomainOf(address))
  }

  function MatchCount(entries: seq<Entry>, address: string): nat {
    if entries == [] then 0
    else MatchCount(entries[1..], address) + (if Matches(entries[0], address) then 1 else 0)
  }

  function Check(db: Db, email: string): Verdict {
    if email == "" || '@' !in email then Suppressed
    else
      var address := Norm(email);
      var hits := MatchCount(db.entries, address);
      if hits > 1 then Raised
      else if hits == 1 then Suppressed
      else if address in db.leads && (db.leads[address].optOut || db.leads[address].doNotContact) then Suppressed
      else Clear
  }

  predicate Listed(db: Db, address: string) {
    exists entry <- db.entries :: Matches(entry, address)
  }

  predicate Flagged(db: Db, address: string) {
    address in db.leads && (db.leads[address].optOut || db.leads[address].doNotContact)
  }

  // No mail can be dispatched to the address.
  predicate Blocked(db: Db, address: string) {
    '@' !in address || Listed(db, address) || Flagged(db, address)
  }

  // The lead of this address carries the opt_out flag.
  predicate OptedOut(db: Db, email: string) {
    Norm(email) in db.leads && db.leads[Norm(email)].optOut
  }

  lemma {:induction false} OptedOutIsBlocked(db: Db, email: string)
    requires OptedOut(db, email)
    ensures Blocked(db, Norm(email))
  {
  }

  lemma {:induction false} MatchCountMeansListed(entries: seq<Entry>, address: string)
    ensures MatchCount(entries, address) > 0 <==> exists entry <- entries :: Matches(entry, address)
  {
    if entries != [] {
      MatchCountMeansListed(entries[1..], address);
      assert entries == [entries[0]] + entries[1..];
    }
  }

  // Whatever the spelling, the checker lets an address through exactly when it is not blocked.
  lemma {:induction false} CheckExactly(db: Db, email: string)
    ensures Check(db, email) == Clear <==> !Blocked(db, Norm(email))
  {
    NormKeepsAt(email);
    MatchCountMeansListed(db.entries, Norm(email));
  }

  // ----- The writers, as functions of the database -----

  function SetFlags(leads: map<string, Lead>, address: string): map<string, Lead> {
    if address in leads then leads[address := leads[address].(optOut := true, doNotContact := true)] else leads
  }

  function AddDb(db: Db, email: Option<string>, domain: Option<string>): Db {
    var address := if email.Some? && email.value != "" then Some(Norm(email.value)) else None;
    var host := if domain.Some? && domain.value != "" then Some(Norm(domain.value)) else None;
    var named := address.Some? && address.value != "";
    if named && exists entry <- db.entries :: entry.email == address then db
    else Db(db.entries + [Entry(address, host)], if named then SetFlags(db.leads, address.value) else db.leads)
  }

  predicate Importable(c: Contact) { c.email != "" && '@' in Norm(c.email) }

  function ImportDb(db: Db, c: Contact): Db {
    if !Importable(c) then db
    else
      var address := Norm(c.email);
      if address in db.leads then
        var l := db.leads[address];
        db.(leads := db.leads[address := Lead(if c.recordId != "" then c.recordId else l.recordId,
                                              l.optOut || c.optOut, l.doNotContact || c.doNotContact)])
      else db.(leads := db.leads[address := Lead(c.recordId, c.optOut, c.doNotContact)])
  }

  function ImportAll(db: Db, cs: seq<Contact>): Db {
    if cs == [] then db else ImportDb(ImportAll(db, cs[..|cs| - 1]), cs[|cs| - 1])
  }

  // How many contacts of a batch have no usable address.
  function Unusable(cs: seq<Contact>): nat {
    if cs == [] then 0 else Unusable(cs[..|cs| - 1]) + if Importable(cs[|cs| - 1]) then 0 else 1
  }

  lemma {:induction false} ImportNext(db: Db, cs: seq<Contact>, i: nat)
    requires i < |cs|
    ensures ImportAll(db, cs[..i + 1]) == ImportDb(ImportAll(db, cs[..i]), cs[i])
    ensures Unusable(cs[..i + 1]) == Unusable(cs[..i]) + if Importable(cs[i]) then 0 else 1
  {
    assert cs[..i + 1][..i] == cs[..i];
  }

  function Holders(db: Db, recordId: string): set<string> {
    set a | a in db.leads && db.leads[a].recordId == recordId
  }

  // value is the webhook's hs_email_optout property, if it has one; several holders of the record
  // id make the query raise.
  function WebhookDb(db: Db, recordId: string, value: Option<string>): Db {
    var holders := Holders(db, recordId);
    if value.None? || |holders| != 1 then db
    else
      var optOut := Lower(value.value) == "true";
      db.(leads := map a | a in db.leads ::
            if a in holders then db.leads[a].(optOut := optOut, doNotContact := db.leads[a].doNotContact || optOut)
            else db.leads[a])
  }

  function InboundDb(db: Db, sender: string, isOptOut: bool): Db {
    var address := Norm(sender);
    if address == "" || '@' !in address then db
    else
      var leads := if address in db.leads then db.leads else db.leads[address := Lead("", false, false)];
      if !isOptOut then db.(leads := leads)
      else Db(if exists entry <- db.entries :: entry.email == Some(address) then db.entries
              else db.entries + [Entry(Some(address), None)],
              SetFlags(leads, address))
  }

  // ----- The same in the source's form -----

  class Store {
    var entries: seq<Entry>
    var leads: map<string, Lead>
    var syncErrors: nat

    constructor ()
      ensures Value() == Db([], map[]) && syncErrors == 0
    {
      entries := [];
      leads := map[];
      syncErrors := 0;
    }

    function Value(): Db
      reads this
    {
      Db(entries, leads)
    }

    method IsEmailSuppressed(email: string) returns (v: Verdict)
      ensures v == Check(Value(), email)
    {
      if email == "" || '@' !in email {
        return Suppressed;
      }
      var address := Norm(email);
      var hits := 0;
      for i := |entries| downto 0
        invariant hits == MatchCount(entries[i..], address)
      {
        if entries[i].email == Some(address) || entries[i].domain == Some(DomainOf(address)) {
          hits := hits + 1;
        }
      }
      assert entries[0..] == entries;
      if hits > 1 {
        return Raised;
      }
      if hits == 1 {
        return Suppressed;
      }
      if address in leads && (leads[address].optOut || leads[address].doNotContact) {
        return Suppressed;
      }
      return Clear;
    }

    // The gate in front of the provider.
    method OpenGate(email: string) returns (open: bool)
      ensures open <==> !Blocked(Value(), Norm(email))
    {
      var v := IsEmailSuppressed(email);
      CheckExactly(Value(), email);
      return v == Clear;
    }

    method AddToSuppression(email: Option<string>, domain: Option<string>)
      modifies this
      ensures Value() == AddDb(old(Value()), email, domain) && syncErrors == old(syncErrors)
    {
      var address := if email.Some? && email.value != "" then Some(Norm(email.value)) else None;
      var host := if domain.Some? && domain.value != "" then Some(Norm(domain.value)) else None;
      var named := address.Some? && address.value != "";
      if named && exists entry <- entries :: entry.email == address {
        return;
      }
      entries := entries + [Entry(address, host)];
      if named && address.value in leads {
        leads := leads[address.value := leads[address.value].(optOut := true, doNotContact := true)];
      }
    }

    // A contact without a usable address is counted and skipped.
    method ImportContact(c: Contact)
      modifies this
      ensures Value() == ImportDb(old(Value()), c)
      ensures syncErrors == old(syncErrors) + if Importable(c) then 0 else 1
    {
      var address := if c.email != "" then Norm(c.email) else "";
      if address == "" || '@' !in address {
        syncErrors := syncErrors + 1;
        return;
      }
      if address in leads {
        var l := leads[address];
        if c.recordId != "" {
          l := l.(recordId := c.recordId);
        }
        if c.optOut {
          l := l.(optOut := true);
        }
        if c.doNotContact {
          l := l.(doNotContact := true);
        }
        leads := leads[address := l];
      } else {
        leads := leads[address := Lead(c.recordId, c.optOut, c.doNotContact)];
      }
    }

    // One batch of a CRM sync.
    method ImportContacts(cs: seq<Contact>)
      modifies this
      ensures Value() == ImportAll(old(Value()), cs)
      ensures syncErrors == old(syncErrors) + Unusable(cs)
    {
      ghost var db, errors := Value(), syncErrors;
      for i := 0 to |cs|
        invariant Value() == ImportAll(db, cs[..i])
        invariant syncErrors == errors + Unusable(cs[..i])
      {
        ImportNext(db, cs, i);
        ImportContact(cs[i]);
      }
      assert cs[..|cs|] == cs;
    }

    method HandleWebhook(recordId: string, value: Option<string>)
      modifies this
      ensures Value() == WebhookDb(old(Value()), recordId, value) && syncErrors == old(syncErrors)
    {
      var holders := Holders(Value(), recordId);
      if |holders| != 1 {
        return;
      }
      var a :| a in holders;
      assert holders == {a} by {
        assert |holders - {a}| == 0;
      }
      if value.Some? {
        var optOut := Lower(value.value) == "true";
        var l := leads[a].(optOut := optOut);
        if optOut {
          l := l.(doNotContact := true);
        }
        leads := leads[a := l];
      }
    }

    method InterceptInbound(sender: string, isOptOut: bool)
      modifies this
      ensures Value() == InboundDb(old(Value()), sender, isOptOut) && syncErrors == old(syncErrors)
    {
      var address := Norm(sender);
      if address == "" || '@' !in address {
        return;
      }
      if address !in leads {
        leads := leads[address := Lead("", false, false)];
      }
      if isOptOut {
        if !exists entry <- entries :: entry.email == Some(address) {
          entries := entries + [Entry(Some(address), None)];
        }
        leads := leads[address := leads[address].(optOut := true, doNotContact := true)];
      }
    }
  }

  // ----- Runs of the automated writers -----

  datatype Step =
    | Sync(provider: Provider, record: Record)
    | Webhook(recordId: string, value: Option<string>)
    | Inbound(sender: string, isOptOut: bool)
    | Add(email: Option<string>, domain: Option<string>)

  function Apply(db: Db, step: Step): Db {
    match step
    case Sync(provider, record) => ImportDb(db, Normalize(provider, record))
    case Webhook(recordId, value) => WebhookDb(db, recordId, value)
    case Inbound(sender, isOptOut) => InboundDb(db, sender, isOptOut)
    case Add(email, domain) => AddDb(db, email, domain)
  }

  function Run(db: Db, steps: seq<Step>): Db
    decreases |steps|
  {
    if steps == [] then db else Run(Apply(db, steps[0]), steps[1..])
  }

  // What no step ever takes back.
  predicate Permanent(db: Db, address: string) {
    '@' !in address || Listed(db, address) || (address in db.leads && db.leads[address].doNotContact)
  }

  // The invariant no single writer states.
  predicate OptOutIsFinal(db: Db) {
    forall a <- db.leads :: db.leads[a].optOut ==> db.leads[a].doNotContact
  }

  lemma {:induction false} ListedStays(db: Db, db': Db, address: string)
    requires Listed(db, address) && db.entries <= db'.entries
    ensures Listed(db', address)
  {
    var entry :| entry in db.entries && Matches(entry, address);
    assert entry in db'.entries;
  }

  // Entries are only added, and do_not_contact is only set.
  predicate OnlyAdds(db: Db, db': Db) {
    && db.entries <= db'.entries
    && forall a <- db.leads :: a in db'.leads && (db.leads[a].doNotContact ==> db'.leads[a].doNotContact)
  }

  lemma {:induction false} StepOnlyAdds(db: Db, step: Step)
    ensures OnlyAdds(db, Apply(db, step))
  {
  }

  lemma {:induction false} StepKeepsPermanent(db: Db, step: Step, address: string)
    requires Permanent(db, address)
    ensures Permanent(Apply(db, step), address)
  {
    StepOnlyAdds(db, step);
    if Listed(db, address) {
      ListedStays(db, Apply(db, step), address);
    }
  }

  lemma {:induction false} RunKeepsPermanent(db: Db, steps: seq<Step>, address: string)
    requires Permanent(db, address)
    ensures Permanent(Run(db, steps), address)
    decreases |steps|
  {
    if steps != [] {
      StepKeepsPermanent(db, steps[0], address);
      RunKeepsPermanent(Apply(db, steps[0]), steps[1..], address);
    }
  }

  lemma {:induction false} StepKeepsOptOutFinal(db: Db, step: Step)
    requires OptOutIsFinal(db)
    ensures OptOutIsFinal(Apply(db, step))
  {
  }

  lemma {:induction false} RunKeepsOptOutFinal(db: Db, steps: seq<Step>)
    requires OptOutIsFinal(db)
    ensures OptOutIsFinal(Run(db, steps))
    decreases |steps|
  {
    if steps != [] {
      StepKeepsOptOutFinal(db, steps[0]);
      RunKeepsOptOutFinal(Apply(db, steps[0]), steps[1..]);
    }
  }

  lemma {:induction false} RunConcat(db: Db, a: seq<Step>, b: seq<Step>)
    ensures Run(db, a + b) == Run(Run(db, a), b)
    decreases |a|
  {
    if a == [] {
      assert a + b == b;
    } else {
      assert (a + b)[1..] == a[1..] + b;
      RunConcat(Apply(db, a[0]), a[1..], b);
    }
  }

  // Once an address is blocked, by whichever writer, it stays blocked through every later run, and
  // no spelling of it passes the checker.
  lemma {:induction false} SuppressionIsPermanent(db: Db, before: seq<Step>, after: seq<Step>, email: string)
    requires OptOutIsFinal(db)
    requires Blocked(Run(db, before), Norm(email))
    ensures Check(Run(db, before + after), email) != Clear
  {
    var db' := Run(db, before);
    RunKeepsOptOutFinal(db, before);
    assert Permanent(db', Norm(email));
    RunKeepsPermanent(db', after, Norm(email));
    RunConcat(db, before, after);
    CheckExactly(Run(db, before + after), email);
  }

  // Each way of suppressing an address does block it.
  lemma {:induction false} SuppressingBlocks(db: Db, email: string, provider: Provider, record: Record)
    requires '@' in email
    ensures Blocked(AddDb(db, Some(email), None), Norm(email))
    ensures Blocked(InboundDb(db, email, true), Norm(email))
    ensures record.Keys >= {Email} && record[Email] == Str(email) && OptOut(provider, record) ==>
              Blocked(Apply(db, Sync(provider, record)), Norm(email))
  {
    NormKeepsAt(email);
    var address := Norm(email);
    var added := AddDb(db, Some(email), None);
    if entry :| entry in db.entries && entry.email == Some(address) {
      assert Matches(entry, address);
    } else {
      assert Entry(Some(address), None) in added.entries && Matches(Entry(Some(address), None), address);
    }
    if record.Keys >= {Email} && record[Email] == Str(email) && OptOut(provider, record) {
      NormIdempotent(email);
      assert Importable(Normalize(provider, record));
    }
  }

  // A lead the CRM marks do-not-contact is blocked too, new or known.
  lemma {:induction false} DoNotContactBlocks(db: Db, email: string, provider: Provider, record: Record)
    requires '@' in email && Email in record && record[Email] == Str(email)
    requires Normalize(provider, record).doNotContact
    ensures var db' := Apply(db, Sync(provider, record));
            && Blocked(db', Norm(email)) && Norm(email) in db'.leads && db'.leads[Norm(email)].doNotContact
  {
    NormKeepsAt(email);
    NormIdempotent(email);
    assert Importable(Normalize(provider, record));
  }

  // A record that says neither opens nothing and blocks nothing, but makes the sender a lead.
  lemma {:induction false} CleanRecordBlocksNothing(db: Db, email: string, provider: Provider, record: Record,
                                                    address: string)
    requires '@' in email && Email in record && record[Email] == Str(email)
    requires !Normalize(provider, record).optOut && !Normalize(provider, record).doNotContact
    ensures var db' := Apply(db, Sync(provider, record));
            Norm(email) in db'.leads && (Blocked(db', address) <==> Blocked(db, address))
  {
    NormKeepsAt(email);
    NormIdempotent(email);
    assert Importable(Normalize(provider, record));
  }

  // The webhook's opt-out, in any case, blocks the address of the one lead with the record's id for good,
  // and no other address.
  lemma {:induction false} WebhookBlocks(db: Db, recordId: string, value: string, address: string)
    requires Holders(db, recordId) == {address} && Upper(value) == Upper("true")
    ensures var db' := Apply(db, Webhook(recordId, Some(value)));
            && Blocked(db', address) && Permanent(db', address)
            && forall other: string | other != address :: Blocked(db', other) <==> Blocked(db, other)
  {
    assert address in Holders(db, recordId);
    UpperTrueIsTrue(value);
  }

  // A record id that two leads share, or no lead has, makes the webhook change nothing.
  lemma {:induction false} WebhookNeedsOneLead(db: Db, recordId: string, value: Option<string>)
    requires (forall a <- db.leads :: db.leads[a].recordId != recordId)
          || exists a, b :: a in db.leads && b in db.leads && a != b
                            && db.leads[a].recordId == recordId == db.leads[b].recordId
    ensures Apply(db, Webhook(recordId, value)) == db
  {
    var holders := Holders(db, recordId);
    if a, b :| a in db.leads && b in db.leads && a != b && db.leads[a].recordId == recordId == db.leads[b].recordId {
      assert holders == {a, b} + (holders - {a, b});
    } else {
      assert holders == {};
    }
  }

  lemma {:induction false} UpperTrueIsTrue(value: string)
    requires Upper(value) == Upper("true")
    ensures Lower(value) == "true"
  {
    LowerOfUpper(value);
    LowerOfUpper("true");
    LowerFixes("true");
  }

  // A suppressed domain blocks every address whose host it names, however either is written.
  lemma {:induction false} DomainBlocks(db: Db, domain: string, local: string, host: string)
    requires domain != "" && '@' !in host && Norm(host) == Norm(domain)
    ensures Blocked(AddDb(db, None, Some(domain)), Norm(local + "@" + host))
  {
    var added := AddDb(db, None, Some(domain));
    var entry := Entry(None, Some(Norm(domain)));
    HostOfAddress(local, host);
    assert entry in added.entries && Matches(entry, Norm(local + "@" + host));
  }

  // And no other address.
  lemma {:induction false} DomainBlocksNoOther(db: Db, domain: string, local: string, host: string)
    requires '@' !in host && Norm(host) != Norm(domain)
    ensures var address := Norm(local + "@" + host);
            Blocked(AddDb(db, None, Some(domain)), address) <==> Blocked(db, address)
  {
    var address, added := Norm(local + "@" + host), AddDb(db, None, Some(domain));
    HostOfAddress(local, host);
    if Listed(added, address) {
      var entry :| entry in added.entries && Matches(entry, address);
      assert entry in db.entries;
    } else {
      assert forall entry <- db.entries :: entry in added.entries;
    }
  }

  // ----- When the checker raises -----

  predicate MatchTwice(entries: seq<Entry>, address: string) {
    exists i, j :: 0 <= i < j < |entries| && Matches(entries[i], address) && Matches(entries[j], address)
  }

  lemma {:induction false} MatchesShift(entries: seq<Entry>, address: string)
    requires entries != []
    ensures MatchTwice(entries, address) <==>
              || MatchTwice(entries[1..], address)
              || (Matches(entries[0], address) && exists entry <- entries[1..] :: Matches(entry, address))
  {
    var rest := entries[1..];
    assert forall i | 0 <= i < |rest| :: rest[i] == entries[i + 1];
    if i, j :| 0 <= i < j < |entries| && Matches(entries[i], address) && Matches(entries[j], address) {
      assert Matches(rest[j - 1], address);
      assert i > 0 ==> Matches(rest[i - 1], address);
    }
    if i, j :| 0 <= i < j < |rest| && Matches(rest[i], address) && Matches(rest[j], address) {
      assert Matches(entries[i + 1], address) && Matches(entries[j + 1], address);
    }
    if entry :| entry in rest && Matches(entry, address) {
      var j :| 0 <= j < |rest| && rest[j] == entry;
      assert Matches(entries[j + 1], address);
    }
  }

  lemma {:induction false} MatchCountMeansTwice(entries: seq<Entry>, address: string)
    ensures MatchCount(entries, address) > 1 <==> MatchTwice(entries, address)
  {
    if entries != [] {
      MatchCountMeansTwice(entries[1..], address);
      MatchCountMeansListed(entries[1..], address);
      MatchesShift(entries, address);
    }
  }

  // The checker raises, and the task with it, exactly when two entries stand against the address.
  lemma {:induction false} RaisesExactly(db: Db, email: string)
    ensures Check(db, email) == Raised <==> '@' in email && MatchTwice(db.entries, Norm(email))
  {
    MatchCountMeansTwice(db.entries, Norm(email));
  }

  // No address has two entries of its own.
  predicate EmailsListedOnce(db: Db) {
    forall i, j | 0 <= i < j < |db.entries| && db.entries[i].email.Some? && db.entries[i].email.value != "" ::
      db.entries[j].email != db.entries[i].email
  }

  lemma {:induction false} StepListsOnce(db: Db, step: Step)
    requires EmailsListedOnce(db)
    ensures EmailsListedOnce(Apply(db, step))
  {
  }

  lemma {:induction false} RunListsOnce(db: Db, steps: seq<Step>)
    requires EmailsListedOnce(db)
    ensures EmailsListedOnce(Run(db, steps))
    decreases |steps|
  {
    if steps != [] {
      StepListsOnce(db, steps[0]);
      RunListsOnce(Apply(db, steps[0]), steps[1..]);
    }
  }

  // However often an address has been suppressed, only entries for its domain make the checker raise.
  lemma {:induction false} OnlyDomainsRaise(steps: seq<Step>, email: string)
    ensures var db := Run(Db([], map[]), steps);
            Check(db, email) == Raised ==> exists entry <- db.entries :: entry.domain == Some(DomainOf(Norm(email)))
  {
    RunListsOnce(Db([], map[]), steps);
    var db := Run(Db([], map[]), steps);
    RaisesExactly(db, email);
    NormKeepsAt(email);
  }

  // And those do: a domain added twice, or beside one of its addresses, makes it raise.
  lemma {:induction false} DomainTwiceRaises(db: Db, domain: string, local: string, host: string)
    requires domain != "" && '@' !in host && Norm(host) == Norm(domain)
    requires Listed(db, Norm(local + "@" + host))
    ensures Check(AddDb(db, None, Some(domain)), local + "@" + host) == Raised
  {
    var address, added := Norm(local + "@" + host), AddDb(db, None, Some(domain)).entries;
    var entry :| entry in db.entries && Matches(entry, address);
    var i :| 0 <= i < |db.entries| && db.entries[i] == entry;
    HostOfAddress(local, host);
    assert Matches(added[i], address) && Matches(added[|db.entries|], address);
    RaisesExactly(AddDb(db, None, Some(domain)), local + "@" + host);
  }

  // ----- What the writers do to leads -----

  // A lead with both flags set.
  function Stopped(l: Lead): Lead { l.(optOut := true, doNotContact := true) }

  // An address entered for the first time, and the sender of an opt-out at any time, has both flags set; no
  // other lead is touched.
  lemma {:induction false} SuppressingFlags(db: Db, email: string, domain: Option<string>, a: string)
    requires '@' in email && a in db.leads
    ensures var listed := exists entry <- db.entries :: entry.email == Some(Norm(email));
            var added, told := AddDb(db, Some(email), domain), InboundDb(db, email, true);
            && a in added.leads && a in told.leads
            && added.leads[a] == (if a == Norm(email) && !listed then Stopped(db.leads[a]) else db.leads[a])
            && told.leads[a] == (if a == Norm(email) then Stopped(db.leads[a]) else db.leads[a])
  {
    NormKeepsAt(email);
  }

  // Either way the list has the address afterwards, in at most one entry more.
  lemma {:induction false} SuppressingLists(db: Db, email: string, domain: Option<string>)
    requires '@' in email
    ensures forall after | after == AddDb(db, Some(email), domain) || after == InboundDb(db, email, true) ::
              && db.entries <= after.entries && |after.entries| <= |db.entries| + 1
              && exists entry <- after.entries :: entry.email == Some(Norm(email))
  {
    NormKeepsAt(email);
    forall after | after == AddDb(db, Some(email), domain) || after == InboundDb(db, email, true)
      ensures exists entry <- after.entries :: entry.email == Some(Norm(email))
    {
      if after.entries != db.entries {
        assert after.entries[|db.entries|] in after.entries;
      }
    }
  }

  // Whoever writes in becomes a lead, flagged only if the mail is an opt-out.
  lemma {:induction false} SenderBecomesLead(db: Db, sender: string, isOptOut: bool)
    requires '@' in sender && Norm(sender) !in db.leads
    ensures var db' := InboundDb(db, sender, isOptOut);
            && db'.leads.Keys == db.leads.Keys + {Norm(sender)}
            && db'.leads[Norm(sender)] == Lead("", isOptOut, isOptOut)
  {
    NormKeepsAt(sender);
  }

  // ----- The exact condition, without the invariant -----

  ghost function Longest(s: set<string>): (n: nat)
    ensures forall t <- s :: |t| <= n
  {
    if s == {} then 0
    else
      var t :| t in s;
      var n := Longest(s - {t});
      if |t| > n then |t| else n
  }

  // A sync gives the lead a record id nobody else has, and changes no flag.
  lemma {:induction false} SyncAssignsId(db: Db, address: string, unused: string)
    requires Norm(address) == address && '@' in address && address in db.leads && unused != ""
    requires forall a <- db.leads :: db.leads[a].recordId != unused
    ensures var db' := Apply(db, Sync(Pipedrive, map[Email := Str(address), Id := Str(unused)]));
            && db'.entries == db.entries && Holders(db', unused) == {address}
            && address in db'.leads && db'.leads[address] == db.leads[address].(recordId := unused)
  {
    var record: Record := map[Email := Str(address), Id := Str(unused)];
    NotOptedOut(record);
    assert Normalize(Pipedrive, record) == Contact(address, unused, false, false);
  }

  lemma {:induction false} WebhookClears(db: Db, address: string, recordId: string)
    requires Holders(db, recordId) == {address} && !Permanent(db, address)
    ensures !Blocked(Apply(db, Webhook(recordId, Some("false"))), address)
  {
    LowerFixes("false");
    assert |"false"| == 5 && |"true"| == 4;
    assert address in Holders(db, recordId);
    var db' := Apply(db, Webhook(recordId, Some("false")));
    assert db'.entries == db.entries;
    assert db'.leads[address] == db.leads[address].(optOut := false);
  }

  // An address blocked by the opt_out flag alone can be opened again by a sync followed by a webhook.
  lemma {:induction false} OptOutAloneCanBeCleared(db: Db, address: string) returns (steps: seq<Step>)
    requires Norm(address) == address && !Permanent(db, address)
    ensures !Blocked(Run(db, steps), address)
  {
    if !Flagged(db, address) {
      steps := [];
      return;
    }
    var unused := UnusedId(db);
    var sync, clear := Sync(Pipedrive, map[Email := Str(address), Id := Str(unused)]), Webhook(unused, Some("false"));
    steps := [sync, clear];
    RunTwo(db, sync, clear);
    SyncAssignsId(db, address, unused);
    var db1 := Apply(db, sync);
    assert Permanent(db1, address) == Permanent(db, address);
    WebhookClears(db1, address, unused);
  }

  lemma {:induction false} RunTwo(db: Db, a: Step, b: Step)
    ensures Run(db, [a, b]) == Apply(Apply(db, a), b)
  {
    var db1 := Apply(db, a);
    assert [a, b][1..] == [b] && [b][1..] == [];
    assert Run(db1, [b]) == Apply(db1, b);
  }

  lemma {:induction false} UnusedId(db: Db) returns (unused: string)
    ensures unused != "" && forall a <- db.leads :: db.leads[a].recordId != unused
  {
    var ids := set a | a in db.leads :: db.leads[a].recordId;
    unused := seq(Longest(ids) + 1, i => 'x');
    forall a | a in db.leads
      ensures db.leads[a].recordId != unused
    {
      assert db.leads[a].recordId in ids;
    }
  }

  lemma {:induction false} NotOptedOut(record: Record)
    requires marketing_status !in record
    ensures !OptOut(Pipedrive, record)
  {
    assert TextOr(record, marketing_status, "") == "" && |Lower("")| == 0;
    assert |"unsubscribed"| == 12 && |"opted_out"| == 9 && |"bounced"| == 7;
  }

  lemma {:induction false} PermanentExactly(db: Db, email: string)
    ensures (forall steps: seq<Step> :: Blocked(Run(db, steps), Norm(email))) <==> Permanent(db, Norm(email))
  {
    var address := Norm(email);
    if Permanent(db, address) {
      forall steps: seq<Step>
        ensures Blocked(Run(db, steps), address)
      {
        RunKeepsPermanent(db, steps, address);
      }
    } else {
      NormIdempotent(email);
      var steps := OptOutAloneCanBeCleared(db, address);
      assert !Blocked(Run(db, steps), address);
    }
  }
}
