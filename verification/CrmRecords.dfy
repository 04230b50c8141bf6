/**
Consent flags in CRM records: how each provider's record is normalized into opt_out and
do_not_contact, and what is written back to the CRM for a lead.
*/
module CrmRecords {
  import opened Options
  import opened Text

  datatype Provider = HubSpot | Salesforce | Pipedrive | Zoho

  // The fields that matter here, under the providers' own names.
  datatype Field =
    | Id | Email
    | hs_email_optout | hs_lead_status | lifecyclestage  // HubSpot
    | HasOptedOutOfEmail | DoNotCall | Status            // Salesforce
    | marketing_status                                   // Pipedrive
    | Email_Opt_Out | Lead_Status                        // Zoho

  datatype Json = Null | Bool(b: bool) | Str(s: string)

  // Absent fields are missing from the map.
  type Record = map<Field, Json>

  datatype Contact = Contact(email: string, recordId: string, optOut: bool, doNotContact: bool)

  // str(record.get(key, ""))
  function AsText(r: Record, key: Field): string {
    if key !in r then ""
    else match r[key] case Null => "None" case Bool(b) => (if b then "True" else "False") case Str(s) => s
  }

  // record.get(key) or default, for a field that holds text
  function TextOr(r: Record, key: Field, default: string): string {
    if key in r && r[key].Str? && r[key].s != "" then r[key].s else default
  }

  predicate IsTrue(r: Record, key: Field) { key in r && r[key] == Bool(true) }

  predicate SaysYes(s: string) { s == "true" || s == "1" || s == "yes" }

  predicate SaysTrue(s: string) { s == "true" || s == "1" }

  predicate SaysOut(s: string) { s == "unsubscribed" || s == "opted_out" || s == "bounced" }

  predicate SaysStop(s: string) { s == "unsubscribed" || s == "do not contact" }

  predicate SaysUnsub(stage: string) { Contains(Lower(stage), "unsub") }

  predicate SaysDoNotContact(stage: string) { Contains(Lower(stage), "do not contact") }

  // The flag the provider keeps for opting out of mail; Pipedrive's marketing status is its flag.
  predicate FlagSaysOptOut(p: Provider, r: Record) {
    match p
    case HubSpot => SaysYes(Lower(AsText(r, hs_email_optout)))
    case Salesforce => IsTrue(r, HasOptedOutOfEmail) || SaysTrue(Lower(AsText(r, HasOptedOutOfEmail)))
    case Pipedrive => SaysOut(Lower(TextOr(r, marketing_status, "")))
    case Zoho => IsTrue(r, Email_Opt_Out) || SaysTrue(Lower(AsText(r, Email_Opt_Out)))
  }

  // What the provider's record says beside the flag.
  predicate StageSaysOptOut(p: Provider, r: Record) {
    match p
    case HubSpot =>
      SaysStop(Lower(AsText(r, hs_lead_status))) || TextOr(r, lifecyclestage, "lead") == "unsubscribed"
    case Salesforce =>
      var stage := TextOr(r, Status, "Open - Not Contacted");
      SaysUnsub(stage) || SaysDoNotContact(stage)
    case Pipedrive => false
    case Zoho => SaysUnsub(TextOr(r, Lead_Status, "Attempted to Contact"))
  }

  predicate OptOut(p: Provider, r: Record) { FlagSaysOptOut(p, r) || StageSaysOptOut(p, r) }

  // Every normalizer makes an opted-out contact a do-not-contact one.
  function Normalize(p: Provider, r: Record): (c: Contact)
    ensures c.optOut ==> c.doNotContact
    ensures c.doNotContact <==> c.optOut || (p == Salesforce && DoNotCall in r && r[DoNotCall] == Bool(true))
  {
    var optOut := OptOut(p, r);
    Contact(Norm(TextOr(r, Email, "")), TextOr(r, Id, ""), optOut,
            optOut || (p.Salesforce? && IsTrue(r, DoNotCall)))
  }

  // ----- What counts as an opt-out, value by value -----

  // A text in one of these spellings, upper and lower case alike.
  predicate IsText(r: Record, key: Field, spellings: set<string>) {
    key in r && r[key].Str? && Lower(r[key].s) in spellings
  }

  predicate Mentions(r: Record, key: Field, part: string) {
    key in r && r[key].Str? && Contains(Lower(r[key].s), part)
  }

  // What str() makes of the values that are no text.
  lemma {:induction false} LowerOfOthers(text: string)
    requires text == "" || text == "None" || text == "True" || text == "False"
    ensures var lower := Lower(text);
            && |lower| == |text| && (text == "True" ==> lower == "true")
            && (text == "None" ==> lower[0] == 'n')
  {
    assert text == "True" ==> Lower(text) == ['t', 'r', 'u', 'e'];
  }

  lemma {:induction false} TextOfOthers(r: Record, key: Field)
    requires key !in r || !r[key].Str?
    ensures var text := Lower(AsText(r, key));
            && (SaysTrue(text) <==> IsTrue(r, key)) && (SaysYes(text) <==> IsTrue(r, key)) && !SaysStop(text)
  {
    var text := AsText(r, key);
    LowerOfOthers(text);
    assert |"True"| == 4 && |"False"| == 5 && |"None"| == 4 && "true"[0] == 't';
    assert |"unsubscribed"| == 12 && |"do not contact"| == 14;
  }

  lemma {:induction false} HubSpotOptsOutExactly(r: Record)
    ensures Normalize(HubSpot, r).optOut <==>
              || IsTrue(r, hs_email_optout) || IsText(r, hs_email_optout, {"true", "1", "yes"})
              || IsText(r, hs_lead_status, {"unsubscribed", "do not contact"})
              || (lifecyclestage in r && r[lifecyclestage] == Str("unsubscribed"))
  {
    if hs_email_optout !in r || !r[hs_email_optout].Str? {
      TextOfOthers(r, hs_email_optout);
    }
    if hs_lead_status !in r || !r[hs_lead_status].Str? {
      TextOfOthers(r, hs_lead_status);
    }
    assert |"lead"| == 4 && |"unsubscribed"| == 12;
  }

  lemma {:induction false} FlagTextExactly(r: Record, key: Field)
    ensures IsTrue(r, key) || SaysTrue(Lower(AsText(r, key))) <==> IsTrue(r, key) || IsText(r, key, {"true", "1"})
  {
    if key !in r || !r[key].Str? {
      TextOfOthers(r, key);
    }
  }

  lemma {:induction false} StatusExactly(r: Record, default: string)
    requires default == "Open - Not Contacted"
    ensures var stage := TextOr(r, Status, default);
            SaysUnsub(stage) || SaysDoNotContact(stage)
            <==> Mentions(r, Status, "unsub") || Mentions(r, Status, "do not contact")
  {
    OpenIsNoStop(default);
    NothingIsNoStop("");
  }

  lemma {:induction false} LeadStatusExactly(r: Record, default: string)
    requires default == "Attempted to Contact"
    ensures SaysUnsub(TextOr(r, Lead_Status, default)) <==> Mentions(r, Lead_Status, "unsub")
  {
    AttemptedIsNoStop(default);
    NothingIsNoStop("");
  }

  lemma {:induction false} SalesforceOptsOutExactly(r: Record)
    ensures Normalize(Salesforce, r).optOut <==>
              || IsTrue(r, HasOptedOutOfEmail) || IsText(r, HasOptedOutOfEmail, {"true", "1"})
              || Mentions(r, Status, "unsub") || Mentions(r, Status, "do not contact")
  {
    FlagTextExactly(r, HasOptedOutOfEmail);
    StatusExactly(r, "Open - Not Contacted");
  }

  lemma {:induction false} PipedriveOptsOutExactly(r: Record)
    ensures Normalize(Pipedrive, r).optOut <==>
              IsText(r, marketing_status, {"unsubscribed", "opted_out", "bounced"})
  {
    assert |Lower("")| == 0 && |"unsubscribed"| == 12 && |"opted_out"| == 9 && |"bounced"| == 7;
  }

  lemma {:induction false} ZohoOptsOutExactly(r: Record)
    ensures Normalize(Zoho, r).optOut <==>
              || IsTrue(r, Email_Opt_Out) || IsText(r, Email_Opt_Out, {"true", "1"})
              || Mentions(r, Lead_Status, "unsub")
  {
    FlagTextExactly(r, Email_Opt_Out);
    LeadStatusExactly(r, "Attempted to Contact");
  }

  lemma {:induction false} NothingIsNoStop(s: string)
    requires s == ""
    ensures !SaysUnsub(s) && !SaysDoNotContact(s)
  {
    NoB(s);
    NoA(s);
  }

  lemma {:induction false} OpenIsNoStop(s: string)
    requires s == "Open - Not Contacted"
    ensures !SaysUnsub(s) && !SaysDoNotContact(s)
  {
    assert 'b' !in s && 'B' !in s;
    assert |s| == 20 && forall i | 0 <= i <= 6 :: s[i] != 'd' && s[i] != 'D';
    NoB(s);
    NoEarlyD(s);
  }

  lemma {:induction false} AttemptedIsNoStop(s: string)
    requires s == "Attempted to Contact"
    ensures !SaysUnsub(s)
  {
    assert 'b' !in s && 'B' !in s;
    NoB(s);
  }

  // ----- Writing back -----

  datatype LeadStatus = LeadStatus(optOut: bool, doNotContact: bool, meetingBooked: bool, isQualified: bool,
      disqualified: bool)

  function SuppressionPayload(p: Provider): Record {
    match p
    case HubSpot => map[hs_email_optout := Str("true")]
    case Salesforce => map[HasOptedOutOfEmail := Bool(true), DoNotCall := Bool(true)]
    case Pipedrive => map[marketing_status := Str("opted_out")]
    case Zoho => map[Email_Opt_Out := Bool(true)]
  }

  function StagePayload(p: Provider, l: LeadStatus): Record {
    match p
    case HubSpot =>
      if l.meetingBooked then map[hs_lead_status := Str("CONNECTED"), lifecyclestage := Str("salesqualifiedlead")]
      else if l.isQualified then map[hs_lead_status := Str("QUALIFIED"), lifecyclestage := Str("marketingqualifiedlead")]
      else if l.disqualified then map[hs_lead_status := Str("UNQUALIFIED")]
      else map[]
    case Salesforce =>
      if l.meetingBooked then map[Status := Str("Closed - Converted")]
      else if l.isQualified then map[Status := Str("Working - Contacted")]
      else if l.disqualified then map[Status := Str("Closed - Not Converted")]
      else map[]
    case Pipedrive => map[]
    case Zoho =>
      if l.meetingBooked then map[Lead_Status := Str("Contacted")]
      else if l.isQualified then map[Lead_Status := Str("Pre-Qualified")]
      else if l.disqualified then map[Lead_Status := Str("Lost Lead")]
      else map[]
  }

  function SyncBackPayload(p: Provider, l: LeadStatus): Record {
    (if l.optOut || l.doNotContact then SuppressionPayload(p) else map[]) + StagePayload(p, l)
  }

  lemma {:induction false} LowerTrue(s: string)
    requires s == "true"
    ensures Lower(s) == "true"
  {
    LowerFixes(s);
  }

  lemma {:induction false} LowerOptedOut(s: string)
    requires s == "opted_out"
    ensures Lower(s) == "opted_out"
  {
    LowerFixes(s);
  }

  lemma {:induction false} HubSpotFlagReads(r: Record)
    requires hs_email_optout in r && r[hs_email_optout] == Str("true")
    ensures OptOut(HubSpot, r)
  {
    LowerTrue(AsText(r, hs_email_optout));
  }

  lemma {:induction false} PipedriveStatusReads(r: Record)
    requires marketing_status in r && r[marketing_status] == Str("opted_out")
    ensures OptOut(Pipedrive, r)
  {
    assert |"opted_out"| == 9;
    LowerOptedOut(TextOr(r, marketing_status, ""));
  }

  // A record that carries the payload's suppression field reads as opted out.
  lemma {:induction false} PayloadReadsAsOptOut(p: Provider, r: Record)
    requires forall k <- SuppressionPayload(p) :: k in r && r[k] == SuppressionPayload(p)[k]
    ensures OptOut(p, r)
  {
    match p
    case HubSpot =>
      assert hs_email_optout in SuppressionPayload(p);
      HubSpotFlagReads(r);
    case Salesforce => assert HasOptedOutOfEmail in SuppressionPayload(p);
    case Pipedrive =>
      assert marketing_status in SuppressionPayload(p);
      PipedriveStatusReads(r);
    case Zoho => assert Email_Opt_Out in SuppressionPayload(p);
  }

  // Round trip: once a suppressed lead has been written back, whatever the CRM record says beside
  // it, the next import reads it as opted out.
  lemma {:induction false} SyncBackRoundTrip(p: Provider, r: Record, l: LeadStatus)
    requires l.optOut || l.doNotContact
    ensures Normalize(p, r + SyncBackPayload(p, l)).optOut
    ensures Normalize(p, r + SyncBackPayload(p, l)).doNotContact
    ensures p == Salesforce ==> IsTrue(r + SyncBackPayload(p, l), DoNotCall)
  {
    PayloadReadsAsOptOut(p, r + SyncBackPayload(p, l));
  }

  // Beside that, a suppressed lead is written back like any other.
  lemma {:induction false} SuppressionKeepsStage(p: Provider, l: LeadStatus)
    ensures SyncBackPayload(p, l) - SuppressionPayload(p).Keys
         == SyncBackPayload(p, l.(optOut := false, doNotContact := false))
  {
  }

  // ----- When an opt-out recorded in the CRM survives -----

  predicate HasStage(l: LeadStatus) { l.meetingBooked || l.isQualified || l.disqualified }

  lemma {:induction false} ContainsHas(s: string, sub: string, c: char)
    requires Contains(s, sub) && c in sub
    ensures c in s
  {
    var i :| 0 <= i <= |s| && OccursAt(s, sub, i);
    var k :| 0 <= k < |sub| && sub[k] == c;
    assert s[i..i + |sub|][k] == s[i + k];
  }

  lemma {:induction false} ContainsBegins(s: string, sub: string) returns (i: nat)
    requires Contains(s, sub) && sub != ""
    ensures i + |sub| <= |s| && s[i] == sub[0]
  {
    i :| 0 <= i <= |s| && OccursAt(s, sub, i);
    assert s[i..i + |sub|][0] == s[i];
  }

  lemma {:induction false} LowerHas(s: string, lower: char, upper: char)
    requires 'a' <= lower <= 'z' && upper as int == lower as int - 32
    requires lower in Lower(s)
    ensures lower in s || upper in s
  {
    var i :| 0 <= i < |Lower(s)| && Lower(s)[i] == lower;
    assert LowerChar(s[i]) == lower && s[i] in s;
  }

  // No stage that the sync writes reads as an opt-out.
  lemma {:induction false} NoB(s: string)
    requires 'b' !in s && 'B' !in s
    ensures !SaysUnsub(s)
  {
    if SaysUnsub(s) {
      assert "unsub"[4] == 'b';
      ContainsHas(Lower(s), "unsub", 'b');
      LowerHas(s, 'b', 'B');
    }
  }

  lemma {:induction false} NoA(s: string)
    requires 'a' !in s && 'A' !in s
    ensures !SaysDoNotContact(s)
  {
    if SaysDoNotContact(s) {
      assert "do not contact"[11] == 'a';
      ContainsHas(Lower(s), "do not contact", 'a');
      LowerHas(s, 'a', 'A');
    }
  }

  lemma {:induction false} BeginsEarly(s: string)
    requires SaysDoNotContact(s)
    ensures exists i | 0 <= i <= |s| - 14 :: s[i] == 'd' || s[i] == 'D'
  {
    assert |"do not contact"| == 14;
    var i := ContainsBegins(Lower(s), "do not contact");
    assert Lower(s)[i] == LowerChar(s[i]);
    assert s[i] == 'd' || s[i] == 'D';
  }

  lemma {:induction false} WorkingHasNoB(s: string)
    requires s == "Working - Contacted"
    ensures 'b' !in s && 'B' !in s
  {
  }

  lemma {:induction false} WorkingHasNoEarlyD(s: string)
    requires s == "Working - Contacted"
    ensures |s| == 19 && forall i | 0 <= i <= 5 :: s[i] != 'd' && s[i] != 'D'
  {
  }

  lemma {:induction false} NoEarlyD(s: string)
    requires forall i | 0 <= i <= |s| - 14 :: s[i] != 'd' && s[i] != 'D'
    ensures !SaysDoNotContact(s)
  {
    if SaysDoNotContact(s) {
      BeginsEarly(s);
    }
  }

  lemma {:induction false} WorkingIsNoStop(s: string)
    requires s == "Working - Contacted"
    ensures !SaysUnsub(s) && !SaysDoNotContact(s)
  {
    WorkingHasNoB(s);
    WorkingHasNoEarlyD(s);
    NoB(s);
    NoEarlyD(s);
  }

  lemma {:induction false} ClosedHasNoB(s: string)
    requires s == "Closed - Converted" || s == "Closed - Not Converted"
    ensures 'b' !in s && 'B' !in s
  {
  }

  lemma {:induction false} ClosedHasNoA(s: string)
    requires s == "Closed - Converted" || s == "Closed - Not Converted"
    ensures 'a' !in s && 'A' !in s
  {
  }

  lemma {:induction false} ClosedIsNoStop(s: string)
    requires s == "Closed - Converted" || s == "Closed - Not Converted"
    ensures !SaysUnsub(s) && !SaysDoNotContact(s)
  {
    ClosedHasNoB(s);
    ClosedHasNoA(s);
    NoB(s);
    NoA(s);
  }

  // What the sync has made of a Salesforce status.
  lemma {:induction false} SalesforceStageIsNoStop(l: LeadStatus, s: string)
    requires HasStage(l)
    requires s == if l.meetingBooked then "Closed - Converted" else if l.isQualified then "Working - Contacted"
                  else "Closed - Not Converted"
    ensures !SaysUnsub(s) && !SaysDoNotContact(s)
  {
    if l.isQualified && !l.meetingBooked {
      WorkingIsNoStop(s);
    } else {
      ClosedIsNoStop(s);
    }
  }

  lemma {:induction false} LeadStatusHasNoB(s: string)
    requires s == "Contacted" || s == "Pre-Qualified" || s == "Lost Lead"
    ensures 'b' !in s && 'B' !in s
  {
  }

  // What the sync has made of a Zoho status.
  lemma {:induction false} ZohoStageIsNoStop(l: LeadStatus, stage: string, written: string)
    requires written == if l.meetingBooked then "Contacted" else if l.isQualified then "Pre-Qualified"
                        else if l.disqualified then "Lost Lead" else stage
    ensures SaysUnsub(written) <==> !HasStage(l) && SaysUnsub(stage)
  {
    if HasStage(l) {
      LeadStatusHasNoB(written);
      NoB(written);
    }
  }

  lemma {:induction false} NoStopByLength(s: string)
    requires |s| == 0 || |s| == 9 || |s| == 11
    ensures !SaysYes(s) && !SaysStop(s)
  {
    assert |"true"| == 4 && |"1"| == 1 && |"yes"| == 3 && |"unsubscribed"| == 12 && |"do not contact"| == 14;
  }

  lemma {:induction false} WrittenHubSpotStatusIsNoStop(s: string)
    requires s == "CONNECTED" || s == "QUALIFIED" || s == "UNQUALIFIED" || s == "IN_PROGRESS"
    ensures !SaysStop(Lower(s))
  {
    NoStopByLength(Lower(s));
  }

  lemma {:induction false} WrittenStageIsNoStop(s: string)
    requires s == "salesqualifiedlead" || s == "marketingqualifiedlead" || s == "lead"
    ensures s != "unsubscribed"
  {
    assert s[0] == 's' || s[0] == 'm' || s[0] == 'l';
    assert "unsubscribed"[0] == 'u';
  }

  // Whether what the CRM says beside the flag is left alone.  Pipedrive has no stage written; a HubSpot
  // lead that is only disqualified has its status overwritten but not its lifecycle stage.
  predicate KeepsStage(p: Provider, r: Record, l: LeadStatus) {
    match p
    case HubSpot =>
      !l.meetingBooked && !l.isQualified && (l.disqualified ==> TextOr(r, lifecyclestage, "lead") == "unsubscribed")
    case Pipedrive => true
    case _ => !HasStage(l)
  }

  // r' is r with the fields of a HubSpot sync written into it.
  predicate HubSpotWritten(r: Record, r': Record, l: LeadStatus) {
    && AsText(r', hs_email_optout) == AsText(r, hs_email_optout)
    && AsText(r', hs_lead_status)
       == (if l.meetingBooked then "CONNECTED" else if l.isQualified then "QUALIFIED"
           else if l.disqualified then "UNQUALIFIED" else AsText(r, hs_lead_status))
    && TextOr(r', lifecyclestage, "lead")
       == (if l.meetingBooked then "salesqualifiedlead" else if l.isQualified then "marketingqualifiedlead"
           else TextOr(r, lifecyclestage, "lead"))
  }

  predicate SalesforceWritten(r: Record, r': Record, l: LeadStatus) {
    && FlagSaysOptOut(Salesforce, r') == FlagSaysOptOut(Salesforce, r)
    && TextOr(r', Status, "Open - Not Contacted")
       == (if l.meetingBooked then "Closed - Converted" else if l.isQualified then "Working - Contacted"
           else if l.disqualified then "Closed - Not Converted" else TextOr(r, Status, "Open - Not Contacted"))
  }

  predicate ZohoWritten(r: Record, r': Record, l: LeadStatus) {
    && FlagSaysOptOut(Zoho, r') == FlagSaysOptOut(Zoho, r)
    && TextOr(r', Lead_Status, "Attempted to Contact")
       == (if l.meetingBooked then "Contacted" else if l.isQualified then "Pre-Qualified"
           else if l.disqualified then "Lost Lead" else TextOr(r, Lead_Status, "Attempted to Contact"))
  }

  lemma {:induction false} SyncWritesHubSpot(r: Record, l: LeadStatus)
    requires !l.optOut && !l.doNotContact
    ensures HubSpotWritten(r, r + SyncBackPayload(HubSpot, l), l)
  {
    assert |"salesqualifiedlead"| == 18 && |"marketingqualifiedlead"| == 22;
  }

  lemma {:induction false} SyncWritesSalesforce(r: Record, l: LeadStatus)
    requires !l.optOut && !l.doNotContact
    ensures SalesforceWritten(r, r + SyncBackPayload(Salesforce, l), l)
  {
    assert |"Closed - Converted"| == 18 && |"Working - Contacted"| == 19 && |"Closed - Not Converted"| == 22;
    var r' := r + SyncBackPayload(Salesforce, l);
    assert AsText(r', HasOptedOutOfEmail) == AsText(r, HasOptedOutOfEmail);
    assert IsTrue(r', HasOptedOutOfEmail) == IsTrue(r, HasOptedOutOfEmail);
  }

  lemma {:induction false} SyncWritesZoho(r: Record, l: LeadStatus)
    requires !l.optOut && !l.doNotContact
    ensures ZohoWritten(r, r + SyncBackPayload(Zoho, l), l)
  {
    assert |"Contacted"| == 9 && |"Pre-Qualified"| == 13 && |"Lost Lead"| == 9;
    var r' := r + SyncBackPayload(Zoho, l);
    assert AsText(r', Email_Opt_Out) == AsText(r, Email_Opt_Out) && IsTrue(r', Email_Opt_Out) == IsTrue(r, Email_Opt_Out);
  }

  lemma {:induction false} HubSpotSurvives(r: Record, r': Record, l: LeadStatus)
    requires HubSpotWritten(r, r', l)
    ensures OptOut(HubSpot, r) ==>
              (OptOut(HubSpot, r') <==> FlagSaysOptOut(HubSpot, r) || KeepsStage(HubSpot, r, l))
  {
    if HasStage(l) {
      WrittenHubSpotStatusIsNoStop(AsText(r', hs_lead_status));
    }
    if l.meetingBooked || l.isQualified {
      WrittenStageIsNoStop(TextOr(r', lifecyclestage, "lead"));
    }
  }

  lemma {:induction false} SalesforceSurvives(r: Record, r': Record, l: LeadStatus)
    requires SalesforceWritten(r, r', l)
    ensures OptOut(Salesforce, r) ==>
              (OptOut(Salesforce, r') <==> FlagSaysOptOut(Salesforce, r) || KeepsStage(Salesforce, r, l))
  {
    if HasStage(l) {
      SalesforceStageIsNoStop(l, TextOr(r', Status, "Open - Not Contacted"));
    }
  }

  lemma {:induction false} ZohoSurvives(r: Record, r': Record, l: LeadStatus)
    requires ZohoWritten(r, r', l)
    ensures OptOut(Zoho, r) ==> (OptOut(Zoho, r') <==> FlagSaysOptOut(Zoho, r) || KeepsStage(Zoho, r, l))
  {
    ZohoStageIsNoStop(l, TextOr(r, Lead_Status, "Attempted to Contact"), TextOr(r', Lead_Status, "Attempted to Contact"));
  }

  // It is not so the other way about.  For a lead not known to be suppressed, the CRM's own opt-out
  // survives the writing back exactly when its flag records it or the stage is left alone.
  lemma {:induction false} OptOutSurvivesExactly(p: Provider, r: Record, l: LeadStatus)
    requires !l.optOut && !l.doNotContact
    ensures OptOut(p, r) ==>
              (Normalize(p, r + SyncBackPayload(p, l)).optOut <==> FlagSaysOptOut(p, r) || KeepsStage(p, r, l))
  {
    match p
    case HubSpot =>
      SyncWritesHubSpot(r, l);
      HubSpotSurvives(r, r + SyncBackPayload(p, l), l);
    case Salesforce =>
      SyncWritesSalesforce(r, l);
      SalesforceSurvives(r, r + SyncBackPayload(p, l), l);
    case Pipedrive => assert r + SyncBackPayload(p, l) == r;
    case Zoho =>
      SyncWritesZoho(r, l);
      ZohoSurvives(r, r + SyncBackPayload(p, l), l);
  }

  // Such a loss happens: a booked HubSpot lead whose opt-out stood in its status or stage alone.
  lemma {:induction false} StageErasesOptOut(r: Record)
    requires OptOut(HubSpot, r) && hs_email_optout !in r
    ensures !Normalize(HubSpot, r + SyncBackPayload(HubSpot, LeadStatus(false, false, true, false, false))).optOut
  {
    assert |AsText(r, hs_email_optout)| == 0;
    NoStopByLength(Lower(AsText(r, hs_email_optout)));
    OptOutSurvivesExactly(HubSpot, r, LeadStatus(false, false, true, false, false));
  }

  // ----- The outcome task -----

  // What the worker writes after a qualification.  It never writes the opt-out flag, and it writes
  // status and stage for suppressed leads too; stage is the lead's own lifecycle stage.
  function OutcomePayload(isQualified: bool, stage: Option<string>): Record {
    map[lifecyclestage := Str(if isQualified then "marketingqualifiedlead"
                              else if stage.Some? && stage.value != "" then stage.value else "lead"),
        hs_lead_status := Str(if isQualified then "QUALIFIED" else "IN_PROGRESS")]
  }

  lemma {:induction false} OutcomeAfter(r: Record, isQualified: bool, stage: Option<string>)
    ensures var r' := r + OutcomePayload(isQualified, stage);
            && AsText(r', hs_email_optout) == AsText(r, hs_email_optout)
            && AsText(r', hs_lead_status) == (if isQualified then "QUALIFIED" else "IN_PROGRESS")
            && TextOr(r', lifecyclestage, "lead")
               == (if isQualified then "marketingqualifiedlead"
                   else if stage.Some? && stage.value != "" then stage.value else "lead")
  {
    assert |"marketingqualifiedlead"| == 22 && |"lead"| == 4;
  }

  // Afterwards HubSpot says opted out exactly when its flag did, or the lead was not qualified and its
  // own stage is "unsubscribed": what the platform knows of the lead's suppression does not count.
  lemma {:induction false} OutcomeKeepsOptOutExactly(r: Record, isQualified: bool, stage: Option<string>)
    ensures Normalize(HubSpot, r + OutcomePayload(isQualified, stage)).optOut <==>
              FlagSaysOptOut(HubSpot, r) || (!isQualified && stage == Some("unsubscribed"))
  {
    OutcomeAfter(r, isQualified, stage);
    var r' := r + OutcomePayload(isQualified, stage);
    WrittenHubSpotStatusIsNoStop(AsText(r', hs_lead_status));
    if isQualified || stage.None? || stage.value == "" {
      WrittenStageIsNoStop(TextOr(r', lifecyclestage, "lead"));
    }
  }
}
