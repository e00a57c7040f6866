/**
 What the system remembers of buyers, and forgetting. Three tables hold it under two notions of a phone
 number's digits: the memory tables are keyed by the digits Python's `\D` keeps, while forgetting
 finds the profile rows by the digits SQL's `[^0-9]` keeps. On top runs one call, whose agent sends
 writes that may still be in flight when the buyer asks to be forgotten.
 */
module BuyerMemory {
  import opened Prelude
  import opened Text

  // ---------------------------------------------------------------- phone digits

  /** The zeros of Unicode's decimal digit ranges beyond ASCII; each range is ten consecutive code points. */
  const DECIMAL_ZEROS: seq<int> := [0x660] + [
    0x6F0, 0x7C0, 0x966, 0x9E6, 0xA66, 0xAE6, 0xB66, 0xBE6,
    0xC66, 0xCE6, 0xD66, 0xDE6, 0xE50, 0xED0, 0xF20, 0x1040, 0x1090, 0x17E0,
    0x1810, 0x1946, 0x19D0, 0x1A80, 0x1A90, 0x1B50, 0x1BB0, 0x1C40, 0x1C50, 0xA620,
    0xA8D0, 0xA900, 0xA9D0, 0xA9F0, 0xAA50, 0xABF0, 0xFF10, 0x104A0, 0x10D30, 0x11066,
    0x110F0, 0x11136, 0x111D0, 0x112F0, 0x11450, 0x114D0, 0x11650, 0x116C0, 0x11730, 0x118E0,
    0x11950, 0x11C50, 0x11D50, 0x11DA0, 0x16A60, 0x16AC0, 0x16B50, 0x1D7CE, 0x1D7D8, 0x1D7E2,
    0x1D7EC, 0x1D7F6, 0x1E140, 0x1E2F0, 0x1E950, 0x1FBF0
  ]

  predicate IsAsciiDigit(c: char) {
    '0' <= c <= '9'
  }

  /** The characters `re.sub(r"\D", "", s)` keeps. */
  predicate IsDecimal(c: char) {
    IsAsciiDigit(c) ||
    (c as int >= 0x80 &&
     exists i :: 0 <= i < |DECIMAL_ZEROS| && DECIMAL_ZEROS[i] <= c as int <= DECIMAL_ZEROS[i] + 9)
  }

  /** `normalize_phone`. */
  function Digits(phone: string): string {
    if phone == "" then ""
    else
      var front, last := Digits(phone[..|phone| - 1]), phone[|phone| - 1];
      if IsDecimal(last) then front + [last] else front
  }

  /** `regexp_replace(phone, '[^0-9]', '', 'g')`. */
  function SqlDigits(phone: string): string {
    if phone == "" then ""
    else
      var front, last := SqlDigits(phone[..|phone| - 1]), phone[|phone| - 1];
      if IsAsciiDigit(last) then front + [last] else front
  }

  /** Digits are found character by character. */
  lemma {:induction false} DigitsConcat(a: string, b: string)
    ensures Digits(a + b) == Digits(a) + Digits(b) && SqlDigits(a + b) == SqlDigits(a) + SqlDigits(b)
  {
    if b == "" {
      assert a + b == a;
    } else {
      assert (a + b)[..|a + b| - 1] == a + b[..|b| - 1];
      DigitsConcat(a, b[..|b| - 1]);
    }
  }

  /** Of the ASCII characters both keep exactly the ten digits. */
  lemma AsciiDigitIs(c: char)
    requires c as int < 0x80
    ensures Digits([c]) == SqlDigits([c]) ==
            if c in {'0', '1', '2', '3', '4', '5', '6', '7', '8', '9'} then [c] else ""
  {
    assert [c][..0] == "";
  }

  /** No decimal digit outside ASCII. */
  predicate AsciiOnly(phone: string) {
    forall i :: 0 <= i < |phone| && IsDecimal(phone[i]) ==> IsAsciiDigit(phone[i])
  }

  lemma {:induction false} DigitLengths(phone: string)
    ensures |SqlDigits(phone)| <= |Digits(phone)| <= |phone|
    ensures |SqlDigits(phone)| == |Digits(phone)| ==> AsciiOnly(phone)
  {
    if phone != "" {
      DigitLengths(phone[..|phone| - 1]);
    }
  }

  lemma {:induction false} AsciiAgrees(phone: string)
    requires AsciiOnly(phone)
    ensures SqlDigits(phone) == Digits(phone)
  {
    if phone != "" {
      AsciiAgrees(phone[..|phone| - 1]);
    }
  }

  /** The two notions agree on a phone exactly when its digits are all ASCII. */
  lemma DigitsAgreeIff(phone: string)
    ensures SqlDigits(phone) == Digits(phone) <==> AsciiOnly(phone)
  {
    DigitLengths(phone);
    if AsciiOnly(phone) {
      AsciiAgrees(phone);
    }
  }

  lemma {:induction false} SqlDigitsAreAscii(phone: string)
    ensures forall i :: 0 <= i < |SqlDigits(phone)| ==> IsAsciiDigit(SqlDigits(phone)[i])
  {
    if phone != "" {
      SqlDigitsAreAscii(phone[..|phone| - 1]);
    }
  }

  lemma AsciiSnoc(s: string, c: char)
    ensures AsciiOnly(s + [c]) <==> AsciiOnly(s) && (IsDecimal(c) ==> IsAsciiDigit(c))
  {
    assert forall i :: 0 <= i < |s| ==> (s + [c])[i] == s[i];
    assert (s + [c])[|s|] == c;
  }

  lemma {:induction false} DigitsKeepAll(phone: string)
    ensures AsciiOnly(Digits(phone)) <==> AsciiOnly(phone)
    ensures forall i :: 0 <= i < |Digits(phone)| ==> IsDecimal(Digits(phone)[i])
  {
    if phone != "" {
      var front, last := phone[..|phone| - 1], phone[|phone| - 1];
      DigitsKeepAll(front);
      assert phone == front + [last];
      AsciiSnoc(front, last);
      AsciiSnoc(Digits(front), last);
    }
  }

  // ---------------------------------------------------------------- the three tables

  datatype BuyerKey = BuyerKey(tenant: string, digits: string)

  datatype Buyer = Buyer(phone: string, name: Option<string>, email: Option<string>, criteria: string,
                         summary: Option<string>)

  datatype ProfileKey = ProfileKey(tenant: string, phone: string)

  datatype Profile = Profile(name: Option<string>, budget: Option<string>, area: Option<string>, prefs: Option<string>)

  datatype Interaction = Interaction(tenant: string, digits: string, kind: string, content: string)

  datatype Tables = Tables(
    buyers: map<BuyerKey, Buyer>,
    profiles: map<ProfileKey, Profile>,
    interactions: seq<Interaction>)

  /** A captured lead, with the profile fields already derived from its criteria. */
  datatype Lead = Lead(phone: string, name: Option<string>, email: Option<string>, criteria: string,
                       summary: Option<string>, fields: Profile)

  /** SQL's coalesce. */
  function Coalesce<T>(a: Option<T>, b: Option<T>): Option<T> {
    if a.Some? then a else b
  }

  /** `upsert_buyer`: refused without digits; an absent name, email or summary keeps the stored one. */
  function UpsertBuyer(t: Tables, tenant: string, lead: Lead): Option<Tables> {
    var digits := Digits(lead.phone);
    if digits == "" then None
    else
      var key := BuyerKey(tenant, digits);
      var stored := if key in t.buyers then t.buyers[key] else Buyer("", None, None, "", None);
      Some(t.(buyers := t.buyers[key := Buyer(lead.phone, Coalesce(lead.name, stored.name),
        Coalesce(lead.email, stored.email), lead.criteria, Coalesce(lead.summary, stored.summary))]))
  }

  /** The profile upsert: only the provided fields are written. */
  function UpsertProfile(t: Tables, tenant: string, phone: string, fields: Profile): Tables {
    var key := ProfileKey(tenant, phone);
    var stored := if key in t.profiles then t.profiles[key] else Profile(None, None, None, None);
    t.(profiles := t.profiles[key := Profile(Coalesce(fields.name, stored.name), Coalesce(fields.budget, stored.budget),
      Coalesce(fields.area, stored.area), Coalesce(fields.prefs, stored.prefs))])
  }

  function AddShowing(t: Tables, tenant: string, phone: string, content: string): Tables {
    t.(interactions := t.interactions + [Interaction(tenant, Digits(phone), "showing", content)])
  }

  /** `improve`: blank content writes nothing; else an interaction, and the summary of a known buyer. */
  function Improve(t: Tables, tenant: string, phone: string, content: string): Tables {
    if Strip(content) == "" then t
    else
      var key := BuyerKey(tenant, Digits(phone));
      Tables(if phone != "" && key in t.buyers
             then t.buyers[key := t.buyers[key].(summary := Some(content))] else t.buyers,
             t.profiles,
             t.interactions + [Interaction(tenant, Digits(phone), "call", content)])
  }

  function Without(rows: seq<Interaction>, tenant: string, digits: string): (r: seq<Interaction>)
    ensures forall i :: 0 <= i < |r| ==> !(r[i].tenant == tenant && r[i].digits == digits)
  {
    if rows == [] then []
    else
      var front, last := Without(rows[..|rows| - 1], tenant, digits), rows[|rows| - 1];
      if last.tenant == tenant && last.digits == digits then front else front + [last]
  }

  /** `forget_buyer`: one transaction over the three tables. */
  function Forget(t: Tables, tenant: string, phone: string): Tables {
    var digits := Digits(phone);
    Tables(t.buyers - {BuyerKey(tenant, digits)},
           map k | k in t.profiles && !(k.tenant == tenant && SqlDigits(k.phone) == digits) :: t.profiles[k],
           Without(t.interactions, tenant, digits))
  }

  /** The writers change the tables in place. */
  class MemoryStore {
    var buyers: map<BuyerKey, Buyer>
    var profiles: map<ProfileKey, Profile>
    var interactions: seq<Interaction>

    function View(): Tables
      reads this
    {
      Tables(buyers, profiles, interactions)
    }

    constructor ()
      ensures View() == Tables(map[], map[], [])
    {
      buyers, profiles, interactions := map[], map[], [];
    }

    /** False is the raised ValueError. */
    method Upsert(tenant: string, lead: Lead) returns (ok: bool)
      modifies this
      ensures ok == UpsertBuyer(old(View()), tenant, lead).Some?
      ensures View() == if ok then UpsertBuyer(old(View()), tenant, lead).value else old(View())
    {
      var digits := Digits(lead.phone);
      if digits == "" {
        return false;
      }
      var key := BuyerKey(tenant, digits);
      var name, email, summary := lead.name, lead.email, lead.summary;
      if key in buyers {
        name := Coalesce(name, buyers[key].name);
        email := Coalesce(email, buyers[key].email);
        summary := Coalesce(summary, buyers[key].summary);
      }
      buyers := buyers[key := Buyer(lead.phone, name, email, lead.criteria, summary)];
      return true;
    }

    method SaveProfile(tenant: string, phone: string, fields: Profile)
      modifies this
      ensures View() == UpsertProfile(old(View()), tenant, phone, fields)
    {
      var key := ProfileKey(tenant, phone);
      var row := if key in profiles then profiles[key] else Profile(None, None, None, None);
      if fields.name.Some? { row := row.(name := fields.name); }
      if fields.budget.Some? { row := row.(budget := fields.budget); }
      if fields.area.Some? { row := row.(area := fields.area); }
      if fields.prefs.Some? { row := row.(prefs := fields.prefs); }
      profiles := profiles[key := row];
    }

    method RecordShowing(tenant: string, phone: string, content: string)
      modifies this
      ensures View() == AddShowing(old(View()), tenant, phone, content)
    {
      interactions := interactions + [Interaction(tenant, Digits(phone), "showing", content)];
    }

    method FoldCall(tenant: string, phone: string, content: string)
      modifies this
      ensures View() == Improve(old(View()), tenant, phone, content)
    {
      if Strip(content) == "" {
        return;
      }
      interactions := interactions + [Interaction(tenant, Digits(phone), "call", content)];
      var key := BuyerKey(tenant, Digits(phone));
      if phone != "" && key in buyers {
        buyers := buyers[key := buyers[key].(summary := Some(content))];
      }
    }

    /** Returns how many memory_buyers rows went. */
    method ForgetBuyer(tenant: string, phone: string) returns (deleted: nat)
      modifies this
      ensures View() == Forget(old(View()), tenant, phone)
      ensures deleted == if BuyerKey(tenant, Digits(phone)) in old(buyers) then 1 else 0
    {
      var digits := Digits(phone);
      interactions := Without(interactions, tenant, digits);
      deleted := if BuyerKey(tenant, digits) in buyers then 1 else 0;
      buyers := buyers - {BuyerKey(tenant, digits)};
      profiles := map k | k in profiles && !(k.tenant == tenant && SqlDigits(k.phone) == digits) :: profiles[k];
    }
  }

  // ---------------------------------------------------------------- a buyer's row over any history

  /** Operations of any calls of any tenants on the tables. */
  datatype TableOp =
    | LeadOp(tenant: string, lead: Lead)
    | ProfileOp(tenant: string, phone: string, fields: Profile)
    | ShowingOp(tenant: string, phone: string, content: string)
    | FoldOp(tenant: string, phone: string, content: string)
    | ForgetOp(tenant: string, phone: string)

  function Apply(t: Tables, op: TableOp): Tables {
    match op
    case LeadOp(tenant, lead) =>
      (match UpsertBuyer(t, tenant, lead) case Some(u) => u case None => t)
    case ProfileOp(tenant, phone, fields) => UpsertProfile(t, tenant, phone, fields)
    case ShowingOp(tenant, phone, content) => AddShowing(t, tenant, phone, content)
    case FoldOp(tenant, phone, content) => Improve(t, tenant, phone, content)
    case ForgetOp(tenant, phone) => Forget(t, tenant, phone)
  }

  function History(ops: seq<TableOp>): Tables {
    if ops == [] then Tables(map[], map[], []) else Apply(History(ops[..|ops| - 1]), ops[|ops| - 1])
  }

  predicate Captures(op: TableOp, key: BuyerKey) {
    op.LeadOp? && key == BuyerKey(op.tenant, Digits(op.lead.phone)) && key.digits != ""
  }

  predicate Forgets(op: TableOp, key: BuyerKey) {
    op.ForgetOp? && key == BuyerKey(op.tenant, Digits(op.phone))
  }

  /** Lead `i` is the last of the buyer, and the buyer has not been forgotten since. */
  ghost predicate IsLatest(ops: seq<TableOp>, key: BuyerKey, i: int) {
    && 0 <= i < |ops| && Captures(ops[i], key)
    && forall j :: i < j < |ops| ==> !Captures(ops[j], key) && !Forgets(ops[j], key)
  }

  /** What a buyer's row keeps when a lead leaves it out. */
  datatype BuyerField = NameField | EmailField | SummaryField

  function Remembered(b: Buyer, f: BuyerField): Option<string> {
    match f case NameField => b.name case EmailField => b.email case SummaryField => b.summary
  }

  /** What an operation says of the field: a lead may give it, and a folded call is the summary. */
  function GivenBy(op: TableOp, key: BuyerKey, f: BuyerField): Option<string> {
    match op
    case LeadOp(_, lead) =>
      if !Captures(op, key) then None
      else (match f case NameField => lead.name case EmailField => lead.email case SummaryField => lead.summary)
    case FoldOp(tenant, phone, content) =>
      if f == SummaryField && key == BuyerKey(tenant, Digits(phone)) && phone != "" && !AllBlank(content)
      then Some(content) else None
    case _ => None
  }

  ghost predicate Known(ops: seq<TableOp>, key: BuyerKey) {
    exists i :: IsLatest(ops, key, i)
  }

  /** Operation `i` sets the field; a folded call only of a buyer known then. */
  ghost predicate Sets(ops: seq<TableOp>, key: BuyerKey, f: BuyerField, i: int) {
    0 <= i < |ops| && GivenBy(ops[i], key, f).Some? && (ops[i].FoldOp? ==> Known(ops[..i], key))
  }

  /** Operation `i` is the last that set the field, and the buyer has not been forgotten since. */
  ghost predicate IsSetting(ops: seq<TableOp>, key: BuyerKey, f: BuyerField, i: int) {
    Sets(ops, key, f, i) && forall j :: i < j < |ops| ==> !Sets(ops, key, f, j) && !Forgets(ops[j], key)
  }

  /** The buyer is remembered exactly while there is a latest lead, with its spelling and its criteria. */
  ghost predicate LatestShows(ops: seq<TableOp>, key: BuyerKey, buyers: map<BuyerKey, Buyer>) {
    && (key in buyers <==> exists i :: IsLatest(ops, key, i))
    && (forall i :: IsLatest(ops, key, i) ==>
          key in buyers && buyers[key].phone == ops[i].lead.phone && buyers[key].criteria == ops[i].lead.criteria)
  }

  /** The remembered value is the one last given. */
  ghost predicate FieldShows(ops: seq<TableOp>, key: BuyerKey, f: BuyerField, buyers: map<BuyerKey, Buyer>) {
    && (key in buyers && Remembered(buyers[key], f).Some? <==> exists i :: IsSetting(ops, key, f, i))
    && (forall i :: IsSetting(ops, key, f, i) ==>
          key in buyers && Remembered(buyers[key], f) == GivenBy(ops[i], key, f))
  }

  lemma LatestStep(ops: seq<TableOp>, op: TableOp, key: BuyerKey, t: Tables)
    requires LatestShows(ops, key, t.buyers)
    ensures LatestShows(ops + [op], key, Apply(t, op).buyers)
  {
    var all, n := ops + [op], |ops|;
    assert all[n] == op && forall j :: 0 <= j < n ==> all[j] == ops[j];
    forall i
      ensures IsLatest(all, key, i) <==>
              if Captures(op, key) then i == n else IsLatest(ops, key, i) && !Forgets(op, key)
    {
    }
    if Captures(op, key) {
      assert IsLatest(all, key, n);
    }
  }

  lemma SettingSnoc(ops: seq<TableOp>, op: TableOp, key: BuyerKey, f: BuyerField, i: int)
    ensures var all := ops + [op];
      var sets := GivenBy(op, key, f).Some? && (op.FoldOp? ==> Known(ops, key));
      && (Sets(all, key, f, |ops|) <==> sets)
      && (IsSetting(all, key, f, i) <==>
            if sets then i == |ops| else IsSetting(ops, key, f, i) && !Forgets(op, key))
  {
    var all, n := ops + [op], |ops|;
    assert all[n] == op && all[..n] == ops;
    forall j | 0 <= j < n ensures all[j] == ops[j] && (Sets(all, key, f, j) <==> Sets(ops, key, f, j)) {
      assert all[..j] == ops[..j];
    }
  }

  /** What one operation does to a remembered field. */
  lemma FieldAfter(t: Tables, op: TableOp, key: BuyerKey, f: BuyerField, known: bool)
    requires known <==> key in t.buyers
    ensures var after, given := Apply(t, op).buyers, GivenBy(op, key, f);
      var was := if key in t.buyers then Remembered(t.buyers[key], f) else None;
      (if key in after then Remembered(after[key], f) else None) ==
        if given.Some? && (op.FoldOp? ==> known) then given else if Forgets(op, key) then None else was
  {
    if op.FoldOp? {
      BlankStrips(op.content);
    }
  }

  lemma FieldStep(ops: seq<TableOp>, op: TableOp, key: BuyerKey, f: BuyerField, t: Tables)
    requires LatestShows(ops, key, t.buyers) && FieldShows(ops, key, f, t.buyers)
    ensures FieldShows(ops + [op], key, f, Apply(t, op).buyers)
  {
    FieldAfter(t, op, key, f, Known(ops, key));
    forall i
      ensures IsSetting(ops + [op], key, f, i) <==>
              if GivenBy(op, key, f).Some? && (op.FoldOp? ==> Known(ops, key)) then i == |ops|
              else IsSetting(ops, key, f, i) && !Forgets(op, key)
    {
      SettingSnoc(ops, op, key, f, i);
    }
    assert (ops + [op])[|ops|] == op && forall i :: 0 <= i < |ops| ==> (ops + [op])[i] == ops[i];
    if GivenBy(op, key, f).Some? && (op.FoldOp? ==> Known(ops, key)) {
      assert IsSetting(ops + [op], key, f, |ops|);
    }
  }

  /** Whatever any calls of any tenants did, a buyer is remembered exactly while some lead came after the last
      forget; the row has the last such lead's spelling of the phone and its criteria, absent ones included, and
      the last name and email any of them gave; its summary is the last one given or folded since. */
  lemma {:induction false} RememberedIsHistory(ops: seq<TableOp>, key: BuyerKey)
    ensures LatestShows(ops, key, History(ops).buyers)
    ensures forall f :: FieldShows(ops, key, f, History(ops).buyers)
  {
    if ops != [] {
      var before, op := ops[..|ops| - 1], ops[|ops| - 1];
      RememberedIsHistory(before, key);
      assert ops == before + [op];
      LatestStep(before, op, key, History(before));
      forall f ensures FieldShows(ops, key, f, History(ops).buyers) {
        FieldStep(before, op, key, f, History(before));
      }
    }
  }

  // ---------------------------------------------------------------- profiles and interactions over any history

  datatype ProfileField = ProfileName | Budget | Area | Prefs

  function Stored(p: Profile, f: ProfileField): Option<string> {
    match f case ProfileName => p.name case Budget => p.budget case Area => p.area case Prefs => p.prefs
  }

  predicate WritesProfile(op: TableOp, key: ProfileKey) {
    op.ProfileOp? && op.tenant == key.tenant && op.phone == key.phone
  }

  /** A forget deletes the rows whose ASCII digits are the forgotten number's digits. */
  predicate DeletesProfile(op: TableOp, key: ProfileKey) {
    op.ForgetOp? && op.tenant == key.tenant && Digits(op.phone) == SqlDigits(key.phone)
  }

  /** Operation `i` is the last to write the row, or to give the field, and the row has not been deleted since. */
  ghost predicate IsWriting(ops: seq<TableOp>, key: ProfileKey, f: Option<ProfileField>, i: int) {
    && 0 <= i < |ops| && Provides(ops[i], key, f)
    && forall j :: i < j < |ops| ==> !Provides(ops[j], key, f) && !DeletesProfile(ops[j], key)
  }

  predicate Provides(op: TableOp, key: ProfileKey, f: Option<ProfileField>) {
    WritesProfile(op, key) && (f.Some? ==> Stored(op.fields, f.value).Some?)
  }

  /** The row is there while a write came after the last deletion, and holds each field as last given since. */
  ghost predicate ProfileShows(ops: seq<TableOp>, key: ProfileKey, f: Option<ProfileField>,
                               profiles: map<ProfileKey, Profile>) {
    && (key in profiles && (f.Some? ==> Stored(profiles[key], f.value).Some?) <==>
          exists i :: IsWriting(ops, key, f, i))
    && (f.Some? ==> forall i :: IsWriting(ops, key, f, i) ==>
          key in profiles && Stored(profiles[key], f.value) == Stored(ops[i].fields, f.value))
  }

  lemma WritingSnoc(ops: seq<TableOp>, op: TableOp, key: ProfileKey, f: Option<ProfileField>, i: int)
    ensures IsWriting(ops + [op], key, f, i) <==>
            if Provides(op, key, f) then i == |ops| else IsWriting(ops, key, f, i) && !DeletesProfile(op, key)
  {
    var all := ops + [op];
    assert all[|ops|] == op && forall j :: 0 <= j < |ops| ==> all[j] == ops[j];
  }

  lemma ProfileStep(ops: seq<TableOp>, op: TableOp, key: ProfileKey, f: Option<ProfileField>, t: Tables)
    requires ProfileShows(ops, key, f, t.profiles)
    ensures ProfileShows(ops + [op], key, f, Apply(t, op).profiles)
  {
    forall i
      ensures IsWriting(ops + [op], key, f, i) <==>
              if Provides(op, key, f) then i == |ops| else IsWriting(ops, key, f, i) && !DeletesProfile(op, key)
    {
      WritingSnoc(ops, op, key, f, i);
    }
    assert (ops + [op])[|ops|] == op && forall i :: 0 <= i < |ops| ==> (ops + [op])[i] == ops[i];
    if Provides(op, key, f) {
      assert IsWriting(ops + [op], key, f, |ops|);
    }
  }

  /** A profile row is there exactly while a write of its spelling came after the last deletion, and each of its fields
      is the one last given since: a write that leaves a field out never wipes it. */
  lemma {:induction false} ProfileIsHistory(ops: seq<TableOp>, key: ProfileKey, f: Option<ProfileField>)
    ensures ProfileShows(ops, key, f, History(ops).profiles)
  {
    if ops != [] {
      var before, op := ops[..|ops| - 1], ops[|ops| - 1];
      ProfileIsHistory(before, key, f);
      assert ops == before + [op];
      ProfileStep(before, op, key, f, History(before));
    }
  }

  /** A showing, or a call with something said, leaves this interaction. */
  predicate Leaves(op: TableOp, r: Interaction) {
    match op
    case ShowingOp(tenant, phone, content) => r == Interaction(tenant, Digits(phone), "showing", content)
    case FoldOp(tenant, phone, content) =>
      !AllBlank(content) && r == Interaction(tenant, Digits(phone), "call", content)
    case _ => false
  }

  predicate Erases(op: TableOp, r: Interaction) {
    op.ForgetOp? && op.tenant == r.tenant && Digits(op.phone) == r.digits
  }

  ghost predicate Left(ops: seq<TableOp>, r: Interaction) {
    exists i :: 0 <= i < |ops| && Leaves(ops[i], r) && forall j :: i < j < |ops| ==> !Erases(ops[j], r)
  }

  lemma LeftSnoc(ops: seq<TableOp>, op: TableOp, r: Interaction)
    ensures Left(ops + [op], r) <==> Leaves(op, r) || (Left(ops, r) && !Erases(op, r))
  {
    var all := ops + [op];
    assert all[|ops|] == op && forall j :: 0 <= j < |ops| ==> all[j] == ops[j];
    if Left(ops, r) && !Erases(op, r) {
      var i :| 0 <= i < |ops| && Leaves(ops[i], r) && forall j :: i < j < |ops| ==> !Erases(ops[j], r);
      assert Leaves(all[i], r);
    }
  }

  lemma {:induction false} WithoutHas(rows: seq<Interaction>, tenant: string, digits: string, r: Interaction)
    ensures r in Without(rows, tenant, digits) <==> r in rows && !(r.tenant == tenant && r.digits == digits)
  {
    if rows != [] {
      WithoutHas(rows[..|rows| - 1], tenant, digits, r);
      assert rows == rows[..|rows| - 1] + [rows[|rows| - 1]];
    }
  }

  /** The interactions kept are those left by showings and folded calls and not forgotten since. */
  lemma {:induction false} InteractionsAreHistory(ops: seq<TableOp>, r: Interaction)
    ensures r in History(ops).interactions <==> Left(ops, r)
  {
    if ops != [] {
      var before, op := ops[..|ops| - 1], ops[|ops| - 1];
      InteractionsAreHistory(before, r);
      assert ops == before + [op];
      LeftSnoc(before, op, r);
      if op.ForgetOp? {
        WithoutHas(History(before).interactions, op.tenant, Digits(op.phone), r);
      } else if op.FoldOp? {
        BlankStrips(op.content);
      }
    }
  }

  // ---------------------------------------------------------------- what forgetting reaches

  /** No memory of these digits is left to the tenant, under any spelling. */
  ghost predicate Gone(t: Tables, tenant: string, digits: string) {
    BuyerKey(tenant, digits) !in t.buyers &&
    (forall i :: 0 <= i < |t.interactions| ==>
      !(t.interactions[i].tenant == tenant && t.interactions[i].digits == digits)) &&
    (forall k :: k in t.profiles && k.tenant == tenant ==> Digits(k.phone) != digits)
  }

  /** With a non-ASCII digit, every profile row stored under the number's digits survives. */
  lemma ProfilesSurvive(t: Tables, tenant: string, phone: string, k: ProfileKey)
    requires !AsciiOnly(phone) && k in t.profiles && k.tenant == tenant && Digits(k.phone) == Digits(phone)
    ensures var f := Forget(t, tenant, phone); k in f.profiles && f.profiles[k] == t.profiles[k]
    ensures !Gone(Forget(t, tenant, phone), tenant, Digits(phone))
  {
    DigitsKeepAll(phone);
    DigitsKeepAll(k.phone);
    DigitsAgreeIff(k.phone);
  }

  lemma ForgetCompletes(t: Tables, tenant: string, phone: string)
    requires AsciiOnly(phone)
    ensures Gone(Forget(t, tenant, phone), tenant, Digits(phone))
  {
    DigitsKeepAll(phone);
    forall k | k in t.profiles && k.tenant == tenant && Digits(k.phone) == Digits(phone)
      ensures SqlDigits(k.phone) == Digits(phone)
    {
      DigitsKeepAll(k.phone);
      DigitsAgreeIff(k.phone);
    }
  }

  /** Forgetting a number leaves no row of it in any tables, under any spelling, exactly when all its digits are
      ASCII. */
  lemma ForgetIsCompleteIff(tenant: string, phone: string)
    ensures (forall t :: Gone(Forget(t, tenant, phone), tenant, Digits(phone))) <==> AsciiOnly(phone)
  {
    if AsciiOnly(phone) {
      forall t ensures Gone(Forget(t, tenant, phone), tenant, Digits(phone)) {
        ForgetCompletes(t, tenant, phone);
      }
    } else {
      var k := ProfileKey(tenant, phone);
      ProfilesSurvive(Tables(map[], map[k := Profile(None, None, None, None)], []), tenant, phone, k);
    }
  }

  /** Five, then an Arabic-Indic three. */
  const MIXED := "5\U{0663}"

  lemma MixedDigits()
    ensures Digits("5") == "5" == SqlDigits("5") && AsciiOnly("5")
    ensures Digits(MIXED) == MIXED && SqlDigits(MIXED) == "5" && !AsciiOnly(MIXED)
  {
    assert DECIMAL_ZEROS[0] == 0x660;
    assert IsDecimal('\U{0663}') && IsDecimal('5');
    assert "5"[..0] == "" && MIXED[..1] == "5";
    assert IsDecimal(MIXED[1]) && !IsAsciiDigit(MIXED[1]);
  }

  /** It happens: a buyer captured under such a number is not gone after the forget that reports success. */
  lemma MixedNumberIsNotForgotten(t: Tables, tenant: string, lead: Lead)
    requires lead.phone == MIXED
    ensures UpsertBuyer(t, tenant, lead).Some?
    ensures var captured := UpsertProfile(UpsertBuyer(t, tenant, lead).value, tenant, MIXED, lead.fields);
      !Gone(Forget(captured, tenant, MIXED), tenant, Digits(MIXED))
  {
    MixedDigits();
    var captured := UpsertProfile(UpsertBuyer(t, tenant, lead).value, tenant, MIXED, lead.fields);
    ProfilesSurvive(captured, tenant, MIXED, ProfileKey(tenant, MIXED));
  }

  /** And the other way round: forgetting the number 5 deletes the profile of another number. */
  lemma ForgetDeletesAnother(t: Tables, tenant: string)
    requires ProfileKey(tenant, MIXED) in t.profiles
    ensures Digits(MIXED) != Digits("5") && ProfileKey(tenant, MIXED) !in Forget(t, tenant, "5").profiles
  {
    MixedDigits();
  }

  lemma {:induction false} WithoutKeepsOthers(rows: seq<Interaction>, tenant: string, digits: string, r: Interaction)
    requires !(r.tenant == tenant && r.digits == digits)
    ensures multiset(Without(rows, tenant, digits))[r] == multiset(rows)[r]
  {
    if rows != [] {
      var front, last := rows[..|rows| - 1], rows[|rows| - 1];
      WithoutKeepsOthers(front, tenant, digits, r);
      assert rows == front + [last];
    }
  }

  /** Rows of other digits or tenants are untouched; a profile row of other digits is deleted exactly
      when its ASCII digits alone happen to be the forgotten ones, which takes a non-ASCII digit. */
  lemma ForgetSparesOthers(t: Tables, tenant: string, phone: string, b: BuyerKey, k: ProfileKey, r: Interaction)
    ensures var f := Forget(t, tenant, phone);
      (b != BuyerKey(tenant, Digits(phone)) ==>
        (b in f.buyers <==> b in t.buyers) && (b in f.buyers ==> f.buyers[b] == t.buyers[b])) &&
      (!(r.tenant == tenant && r.digits == Digits(phone)) ==>
        multiset(f.interactions)[r] == multiset(t.interactions)[r]) &&
      (k in t.profiles && (k.tenant != tenant || Digits(k.phone) != Digits(phone)) ==>
        (k in f.profiles <==> k.tenant != tenant || SqlDigits(k.phone) != Digits(phone)) &&
        (k !in f.profiles ==> !AsciiOnly(k.phone)) && (k in f.profiles ==> f.profiles[k] == t.profiles[k]))
  {
    DigitsAgreeIff(k.phone);
    if !(r.tenant == tenant && r.digits == Digits(phone)) {
      WithoutKeepsOthers(t.interactions, tenant, Digits(phone), r);
    }
  }

  /** No profile row of another number was deleted. */
  ghost predicate SparesOthers(t: Tables, tenant: string, phone: string) {
    forall k :: k in t.profiles && Digits(k.phone) != Digits(phone) ==> k in Forget(t, tenant, phone).profiles
  }

  /** Whatever the tables hold, forgetting spares other numbers' profiles exactly when the forgotten number itself
      holds a non-ASCII digit; any ASCII number shares its SQL digits with some other number. */
  lemma SparesOthersIff(tenant: string, phone: string)
    ensures (forall t :: SparesOthers(t, tenant, phone)) <==> !AsciiOnly(phone)
  {
    DigitsKeepAll(phone);
    if AsciiOnly(phone) {
      var k := ProfileKey(tenant, phone + MIXED[1..]);
      var three := MIXED[1..];
      MixedDigits();
      DigitsAgreeIff(phone);
      DigitsConcat("5", three);
      assert "5" + three == MIXED;
      DigitsConcat(phone, three);
      var t := Tables(map[], map[k := Profile(None, None, None, None)], []);
      assert k in t.profiles && k !in Forget(t, tenant, phone).profiles;
      assert !SparesOthers(t, tenant, phone);
    } else {
      forall t ensures SparesOthers(t, tenant, phone) {
        forall k | k in t.profiles && Digits(k.phone) != Digits(phone) ensures k in Forget(t, tenant, phone).profiles {
          SqlDigitsAreAscii(k.phone);
        }
      }
    }
  }

  // ---------------------------------------------------------------- one call

  /** What a client posts to close a call: the caller's phone, and perhaps a summary or the texts of the turns. */
  datatype CloseBody = CloseBody(buyerPhone: Option<string>, summary: Option<string>, turns: Option<seq<string>>)

  /** `" ".join(...)`. */
  function JoinTurns(turns: seq<string>): string {
    if turns == [] then ""
    else if |turns| == 1 then turns[0]
    else JoinTurns(turns[..|turns| - 1]) + " " + turns[|turns| - 1]
  }

  /** One space between the turns and nothing else. */
  lemma JoinTurnsIs(turns: seq<string>, t: string)
    ensures JoinTurns([]) == "" && JoinTurns([t]) == t
    ensures turns != [] ==> JoinTurns(turns + [t]) == JoinTurns(turns) + " " + t
  {
    assert (turns + [t])[..|turns|] == turns;
  }

  /** What `improve` folds: the summary, else the transcript. */
  function FoldContent(body: CloseBody): string {
    if Truthy(body.summary) then body.summary.value
    else if body.turns.Some? then JoinTurns(body.turns.value)
    else ""
  }

  /** `close_call`: folds the call when tenant and phone are known. */
  function CloseCall(t: Tables, tenant: string, body: CloseBody): Tables {
    if tenant != "" && Truthy(body.buyerPhone) then Improve(t, tenant, body.buyerPhone.value, FoldContent(body)) else t
  }

  /** A close with a known tenant and phone folds what was said, the summary or else the turns: one interaction, and the
      summary of a buyer the tenant remembers; nothing when nothing was said, or without tenant or phone. */
  lemma CloseFolds(t: Tables, tenant: string, body: CloseBody)
    ensures var u := CloseCall(t, tenant, body);
      var said := if body.summary.Some? && body.summary.value != "" then body.summary.value
                  else if body.turns.Some? then JoinTurns(body.turns.value) else "";
      if tenant == "" || body.buyerPhone.None? || body.buyerPhone.value == "" || AllBlank(said) then u == t
      else
        var key := BuyerKey(tenant, Digits(body.buyerPhone.value));
        && u.profiles == t.profiles && u.buyers.Keys == t.buyers.Keys
        && u.interactions == t.interactions + [Interaction(tenant, key.digits, "call", said)]
        && forall k :: k in t.buyers ==>
             u.buyers[k] == if k == key then t.buyers[k].(summary := Some(said)) else t.buyers[k]
  {
    BlankStrips(FoldContent(body));
  }

  /** `post_call_log`: the agent sends an outcome and the phone, and nothing else. */
  function AgentClose(lastPhone: Option<string>): CloseBody {
    CloseBody(lastPhone, None, None)
  }

  /** A write sent and not finished. A captured lead is written in two transactions, its profile in the second. */
  datatype Write =
    | WriteLead(lead: Lead)
    | WriteProfile(phone: string, fields: Profile)
    | WriteShowing(phone: string, content: string)
    | WriteClose(body: CloseBody)
    | WriteForget(phone: string)

  /** `replies` counts the forgets served whose success the agent has not seen yet. */
  datatype Call = Call(tables: Tables, lastPhone: Option<string>, inflight: seq<Write>, replies: nat, closed: bool)

  /** Tool calls of one call, in any order, and the backend finishing or losing what is in flight. Forgetting is
      asked, served and seen, with anything in between; the agent drops the number only when it sees the success,
      and a reply may be lost. The call is closed by its agent, or by another client with more to say. */
  datatype Action =
    | Capture(phone: Option<string>, lead: Lead)
    | Book(bookPhone: string, content: string)
    | AskForget
    | ForgetSeen
    | ReplyLost
    | Close
    | CloseWith(body: CloseBody)
    | Serve(i: nat)
    | Lose(i: nat)

  function Send(c: Call, w: Write): Call {
    c.(inflight := c.inflight + [w])
  }

  function Drop(ws: seq<Write>, i: nat): seq<Write>
    requires i < |ws|
  {
    ws[..i] + ws[i + 1..]
  }

  /** One transaction of the backend: the tables after it, and what is still to be written. */
  function Served(t: Tables, tenant: string, w: Write): (Tables, seq<Write>) {
    match w
    case WriteLead(lead) =>
      (match UpsertBuyer(t, tenant, lead)
       case Some(u) => (u, [WriteProfile(lead.phone, lead.fields)])
       case None => (t, []))
    case WriteProfile(phone, fields) => (UpsertProfile(t, tenant, phone, fields), [])
    case WriteShowing(phone, content) => (AddShowing(t, tenant, phone, content), [])
    case WriteClose(body) => (CloseCall(t, tenant, body), [])
    case WriteForget(phone) => (Forget(t, tenant, phone), [])
  }

  function Step(c: Call, a: Action, tenant: string): Call {
    match a
    case Capture(phone, lead) =>
      if c.closed then c
      else
        var last := if Truthy(phone) then phone else c.lastPhone;
        Send(c.(lastPhone := last), WriteLead(lead.(phone := OrEmpty(last))))
    case Book(phone, content) =>
      if c.closed then c
      else
        var used := if phone != "" then phone else OrEmpty(c.lastPhone);
        Send(if used != "" then c.(lastPhone := Some(used)) else c, WriteShowing(used, content))
    case AskForget => if c.closed || !Truthy(c.lastPhone) then c else Send(c, WriteForget(c.lastPhone.value))
    case ForgetSeen => if c.replies == 0 then c else c.(lastPhone := None, replies := c.replies - 1)
    case ReplyLost => if c.replies == 0 then c else c.(replies := c.replies - 1)
    case Close => if c.closed then c else Send(c.(closed := true), WriteClose(AgentClose(c.lastPhone)))
    case CloseWith(body) => Send(c, WriteClose(body))
    case Serve(i) =>
      if i >= |c.inflight| then c
      else
        var (after, more) := Served(c.tables, tenant, c.inflight[i]);
        var replies := c.replies + if c.inflight[i].WriteForget? then 1 else 0;
        c.(tables := after, inflight := Drop(c.inflight, i) + more, replies := replies)
    case Lose(i) => if i >= |c.inflight| then c else c.(inflight := Drop(c.inflight, i))
  }

  function Exec(c: Call, acts: seq<Action>, tenant: string): Call {
    if acts == [] then c else Step(Exec(c, acts[..|acts| - 1], tenant), acts[|acts| - 1], tenant)
  }

  /** The write would leave a row under these digits. */
  predicate Touches(w: Write, tenant: string, digits: string) {
    match w
    case WriteLead(lead) => Digits(lead.phone) == digits
    case WriteProfile(phone, _) => Digits(phone) == digits
    case WriteShowing(phone, _) => Digits(phone) == digits
    case WriteClose(body) =>
      tenant != "" && Truthy(body.buyerPhone) && Digits(body.buyerPhone.value) == digits &&
      Strip(FoldContent(body)) != ""
    case WriteForget(_) => false
  }

  /** No write in flight would leave a row under these digits. */
  ghost predicate NoneTouching(ws: seq<Write>, tenant: string, digits: string) {
    forall i :: 0 <= i < |ws| ==> !Touches(ws[i], tenant, digits)
  }

  /** Someone names a phone with these digits again. */
  predicate Recaptures(a: Action, digits: string) {
    match a
    case Capture(phone, _) => Truthy(phone) && Digits(phone.value) == digits
    case Book(phone, _) => phone != "" && Digits(phone) == digits
    case CloseWith(body) => Truthy(body.buyerPhone) && Digits(body.buyerPhone.value) == digits
    case _ => false
  }

  /** The open call's agent has a number with these digits at hand. */
  predicate Holds(c: Call, digits: string) {
    !c.closed && c.lastPhone.Some? && Digits(c.lastPhone.value) == digits
  }

  /** The action sends the number at hand. */
  predicate SendsHeld(c: Call, a: Action, digits: string) {
    Holds(c, digits) &&
    match a
    case Capture(phone, _) => !Truthy(phone)
    case Book(phone, _) => phone == ""
    case _ => false
  }

  /** No row holds the digits, and no write on its way does. */
  ghost predicate Clean(c: Call, tenant: string, digits: string) {
    Gone(c.tables, tenant, digits) && NoneTouching(c.inflight, tenant, digits)
  }

  lemma ServedStaysGone(t: Tables, tenant: string, w: Write, digits: string)
    requires Gone(t, tenant, digits) && !Touches(w, tenant, digits)
    ensures var (after, more) := Served(t, tenant, w);
      Gone(after, tenant, digits) && NoneTouching(more, tenant, digits)
  {
    if w.WriteForget? {
      ForgetStaysGone(t, tenant, w.phone, digits);
    }
  }

  lemma StepStaysClean(c: Call, a: Action, tenant: string, digits: string)
    requires digits != "" && Clean(c, tenant, digits) && !Recaptures(a, digits) && !SendsHeld(c, a, digits)
    ensures Clean(Step(c, a, tenant), tenant, digits)
    ensures !Holds(c, digits) ==> !Holds(Step(c, a, tenant), digits)
  {
    assert Digits("") == "";
    if a.Serve? && a.i < |c.inflight| {
      ServedStaysGone(c.tables, tenant, c.inflight[a.i], digits);
    }
  }

  lemma ForgetStaysGone(t: Tables, tenant: string, phone: string, digits: string)
    requires Gone(t, tenant, digits)
    ensures Gone(Forget(t, tenant, phone), tenant, digits)
  {
    forall i | 0 <= i < |Without(t.interactions, tenant, Digits(phone))|
      ensures var r := Without(t.interactions, tenant, Digits(phone))[i]; !(r.tenant == tenant && r.digits == digits)
    {
      WithoutIsFrom(t.interactions, tenant, Digits(phone), i);
    }
  }

  lemma {:induction false} WithoutIsFrom(rows: seq<Interaction>, tenant: string, digits: string, i: nat)
    requires i < |Without(rows, tenant, digits)|
    ensures exists j :: 0 <= j < |rows| && rows[j] == Without(rows, tenant, digits)[i]
  {
    var front := rows[..|rows| - 1];
    if i < |Without(front, tenant, digits)| {
      WithoutIsFrom(front, tenant, digits, i);
      var j :| 0 <= j < |front| && front[j] == Without(front, tenant, digits)[i];
      assert rows[j] == Without(rows, tenant, digits)[i];
    } else {
      assert rows[|rows| - 1] == Without(rows, tenant, digits)[i];
    }
  }

  /** In an open call the tools send the phone spoken, else the one at hand, and remember what they sent. */
  lemma ToolsSend(c: Call, tenant: string, phone: Option<string>, lead: Lead, content: string)
    requires !c.closed
    ensures var held := if c.lastPhone.Some? then c.lastPhone.value else "";
      var used := if phone.Some? && phone.value != "" then phone.value else held;
      var captured := Step(c, Capture(phone, lead), tenant);
      var booked := Step(c, Book(if phone.Some? then phone.value else "", content), tenant);
      && captured.inflight == c.inflight + [WriteLead(lead.(phone := used))] && captured.tables == c.tables
      && booked.inflight == c.inflight + [WriteShowing(used, content)] && booked.tables == c.tables
      && (used != "" ==> captured.lastPhone == Some(used) == booked.lastPhone)
      && Step(c, Close, tenant) ==
         c.(closed := true, inflight := c.inflight + [WriteClose(CloseBody(c.lastPhone, None, None))])
  {
  }

  /** A lead with digits is remembered in two transactions, its buyer and then, unless that is lost, its profile. */
  lemma LeadIsServedTwice(t: Tables, tenant: string, lead: Lead)
    requires Digits(lead.phone) != ""
    ensures var (half, more) := Served(t, tenant, WriteLead(lead));
      && BuyerKey(tenant, Digits(lead.phone)) in half.buyers && half.profiles == t.profiles && |more| == 1
      && var (whole, rest) := Served(half, tenant, more[0]);
         && rest == [] && whole.buyers == half.buyers && ProfileKey(tenant, lead.phone) in whole.profiles
         && forall f :: Stored(lead.fields, f).Some? ==>
              Stored(whole.profiles[ProfileKey(tenant, lead.phone)], f) == Stored(lead.fields, f)
  {
  }

  /** No action sends the number while the agent has it at hand. */
  ghost predicate Quiet(c: Call, acts: seq<Action>, tenant: string, digits: string) {
    forall k :: 0 <= k < |acts| ==> !SendsHeld(Exec(c, acts[..k], tenant), acts[k], digits)
  }

  /** No action names the number again. */
  ghost predicate NotRecaptured(acts: seq<Action>, digits: string) {
    forall i :: 0 <= i < |acts| ==> !Recaptures(acts[i], digits)
  }

  lemma {:induction false} QuietStaysClean(c: Call, acts: seq<Action>, tenant: string, digits: string)
    requires digits != "" && Clean(c, tenant, digits) && NotRecaptured(acts, digits) && Quiet(c, acts, tenant, digits)
    ensures Clean(Exec(c, acts, tenant), tenant, digits)
  {
    if acts != [] {
      var front := acts[..|acts| - 1];
      assert forall k :: 0 <= k < |front| ==> front[..k] == acts[..k];
      QuietStaysClean(c, front, tenant, digits);
      StepStaysClean(Exec(c, front, tenant), acts[|acts| - 1], tenant, digits);
    }
  }

  lemma {:induction false} ExecStaysClean(c: Call, acts: seq<Action>, tenant: string, digits: string)
    requires digits != "" && Clean(c, tenant, digits) && !Holds(c, digits) && NotRecaptured(acts, digits)
    ensures Clean(Exec(c, acts, tenant), tenant, digits) && !Holds(Exec(c, acts, tenant), digits)
  {
    if acts != [] {
      ExecStaysClean(c, acts[..|acts| - 1], tenant, digits);
      StepStaysClean(Exec(c, acts[..|acts| - 1], tenant), acts[|acts| - 1], tenant, digits);
    }
  }

  /** Whatever the rest of the call and its close do without naming the number again, no row for its digits is
      there at the end, under any spelling. */
  ghost predicate StaysGone(c: Call, tenant: string, digits: string) {
    forall acts :: NotRecaptured(acts, digits) ==> Gone(Exec(c, acts, tenant).tables, tenant, digits)
  }

  lemma HeldComesBack(c: Call, tenant: string, digits: string)
    requires digits != "" && Holds(c, digits)
    ensures !StaysGone(c, tenant, digits)
  {
    var acts := [Book("", ""), Serve(|c.inflight|)];
    assert acts[..1] == [Book("", "")] && acts[..1][..0] == [] && Digits("") == "";
    var b := Step(c, acts[0], tenant);
    assert Exec(c, acts[..1], tenant) == b && Exec(c, acts, tenant) == Step(b, acts[1], tenant);
    LateWriteReturns(c.tables, tenant, b.inflight[|c.inflight|], digits);
    assert NotRecaptured(acts, digits);
  }

  lemma InFlightComesBack(c: Call, tenant: string, digits: string, i: nat)
    requires digits != "" && i < |c.inflight| && Touches(c.inflight[i], tenant, digits)
    ensures !StaysGone(c, tenant, digits)
  {
    var acts := [Serve(i)];
    assert acts[..0] == [] && NotRecaptured(acts, digits);
    assert Exec(c, acts, tenant) == Step(c, acts[0], tenant);
    LateWriteReturns(c.tables, tenant, c.inflight[i], digits);
  }

  /** At any moment of a call at which no row holds the digits, none comes back exactly when no write for them is
      in flight and the open call's agent does not have the number at hand. */
  lemma StaysGoneIff(c: Call, tenant: string, digits: string)
    requires digits != "" && Gone(c.tables, tenant, digits)
    ensures StaysGone(c, tenant, digits) <==> NoneTouching(c.inflight, tenant, digits) && !Holds(c, digits)
  {
    if !NoneTouching(c.inflight, tenant, digits) {
      var i :| 0 <= i < |c.inflight| && Touches(c.inflight[i], tenant, digits);
      InFlightComesBack(c, tenant, digits, i);
    } else if Holds(c, digits) {
      HeldComesBack(c, tenant, digits);
    } else {
      forall acts | NotRecaptured(acts, digits)
        ensures Gone(Exec(c, acts, tenant).tables, tenant, digits)
      {
        ExecStaysClean(c, acts, tenant, digits);
      }
    }
  }

  lemma DropHarmless(ws: seq<Write>, i: nat, tenant: string, digits: string)
    requires i < |ws| && !Touches(ws[i], tenant, digits)
    ensures NoneTouching(Drop(ws, i), tenant, digits) <==> NoneTouching(ws, tenant, digits)
  {
    var rest := Drop(ws, i);
    assert forall j :: 0 <= j < |rest| ==> rest[j] == ws[if j < i then j else j + 1];
    if j :| 0 <= j < |ws| && Touches(ws[j], tenant, digits) {
      assert rest[if j < i then j else j - 1] == ws[j];
    }
  }

  /** The moment a forget is served, for a number with digits, all ASCII: it lasts whatever comes exactly when no
      write for those digits is in flight and the agent no longer has the number. While the agent waits for the
      reply it still has it. */
  lemma ForgottenStaysForgottenIff(c: Call, tenant: string, phone: string, i: nat)
    requires i < |c.inflight| && c.inflight[i] == WriteForget(phone) && Digits(phone) != "" && AsciiOnly(phone)
    ensures StaysGone(Step(c, Serve(i), tenant), tenant, Digits(phone)) <==>
            NoneTouching(c.inflight, tenant, Digits(phone)) && !Holds(c, Digits(phone))
  {
    var f := Step(c, Serve(i), tenant);
    ForgetCompletes(c.tables, tenant, phone);
    DropHarmless(c.inflight, i, tenant, Digits(phone));
    assert f.inflight == Drop(c.inflight, i);
    StaysGoneIff(f, tenant, Digits(phone));
  }

  /** The agent waits for a reply, and meanwhile nothing names the number or sends the one at hand. */
  ghost predicate QuietWait(c: Call, wait: seq<Action>, tenant: string, digits: string) {
    NotRecaptured(wait, digits) && Quiet(c, wait, tenant, digits) && Exec(c, wait, tenant).replies > 0
  }

  /** From a served forget to the agent seeing it: it lasts through every wait in which nothing sends the number at
      hand, and every rest of the call, exactly when no write for the digits was in flight when it was served. */
  lemma SeenForgetLastsIff(c: Call, tenant: string, digits: string)
    requires digits != "" && Gone(c.tables, tenant, digits) && c.replies > 0
    ensures (forall wait :: QuietWait(c, wait, tenant, digits) ==>
              StaysGone(Step(Exec(c, wait, tenant), ForgetSeen, tenant), tenant, digits))
            <==> NoneTouching(c.inflight, tenant, digits)
  {
    if NoneTouching(c.inflight, tenant, digits) {
      forall wait | QuietWait(c, wait, tenant, digits)
        ensures StaysGone(Step(Exec(c, wait, tenant), ForgetSeen, tenant), tenant, digits)
      {
        QuietStaysClean(c, wait, tenant, digits);
        StaysGoneIff(Step(Exec(c, wait, tenant), ForgetSeen, tenant), tenant, digits);
      }
    } else {
      StaysGoneIff(Step(c, ForgetSeen, tenant), tenant, digits);
      assert Exec(c, [], tenant) == c && QuietWait(c, [], tenant, digits);
    }
  }

  /** One action in the wait: the forget the agent then sees lasts exactly when the action does not send the number
      at hand. A booking or a capture without a phone does. */
  lemma WaitingActionIff(c: Call, a: Action, tenant: string, digits: string)
    requires digits != "" && Clean(c, tenant, digits) && !Recaptures(a, digits) && Step(c, a, tenant).replies > 0
    ensures StaysGone(Step(Step(c, a, tenant), ForgetSeen, tenant), tenant, digits) <==> !SendsHeld(c, a, digits)
  {
    var d := Step(c, a, tenant);
    if SendsHeld(c, a, digits) {
      assert Digits("") == "";
      assert Touches(d.inflight[|c.inflight|], tenant, digits);
    } else {
      StepStaysClean(c, a, tenant, digits);
    }
    StaysGoneIff(Step(d, ForgetSeen, tenant), tenant, digits);
  }

  /** A write that was in flight brings a row back. */
  lemma LateWriteReturns(t: Tables, tenant: string, w: Write, digits: string)
    requires Touches(w, tenant, digits) && digits != ""
    ensures !Gone(Served(t, tenant, w).0, tenant, digits)
  {
    var after := Served(t, tenant, w).0;
    match w
    case WriteLead(lead) => assert BuyerKey(tenant, digits) in after.buyers;
    case WriteShowing(_, _) => assert after.interactions[|t.interactions|].digits == digits;
    case WriteProfile(phone, _) => assert ProfileKey(tenant, phone) in after.profiles;
    case WriteClose(_) => assert after.interactions[|t.interactions|].digits == digits;
    case WriteForget(_) =>
  }

  /** The call after its agent asked to forget, was served at once and saw it. */
  function Forgotten(c: Call, tenant: string): Call {
    Step(Step(Step(c, AskForget, tenant), Serve(|c.inflight|), tenant), ForgetSeen, tenant)
  }

  lemma ForgottenIs(c: Call, tenant: string, phone: string)
    requires !c.closed && c.lastPhone == Some(phone) && phone != ""
    ensures Forgotten(c, tenant) == c.(tables := Forget(c.tables, tenant, phone), lastPhone := None)
  {
    var asked := Step(c, AskForget, tenant);
    assert Drop(asked.inflight, |c.inflight|) + [] == c.inflight;
  }

  /** For a number without digits forgetting does not last even when seen: a later booking without a phone writes a
      row under the same empty digits. */
  lemma DigitlessIsNotForgotten(c: Call, tenant: string, phone: string, content: string)
    requires !c.closed && c.lastPhone == Some(phone) && phone != "" && Digits(phone) == ""
    ensures var later := [Book("", content), Serve(|c.inflight|)];
      NotRecaptured(later, "") && !Gone(Exec(Forgotten(c, tenant), later, tenant).tables, tenant, "")
  {
    ForgottenIs(c, tenant, phone);
    var later := [Book("", content), Serve(|c.inflight|)];
    var f := c.(tables := Forget(c.tables, tenant, phone), lastPhone := None);
    assert later[..1] == [Book("", content)] && later[..1][..0] == [];
    var b := Step(f, later[0], tenant);
    assert Exec(f, later[..1], tenant) == b;
    assert b.inflight[|c.inflight|] == WriteShowing("", content);
    var end := Step(b, later[1], tenant);
    assert end.tables.interactions[|f.tables.interactions|] == Interaction(tenant, "", "showing", content);
  }

  /** Every call folded into memory is one the tables held at the start. */
  ghost predicate NoneFolded(start: Tables, now: Tables) {
    forall i :: 0 <= i < |now.interactions| && now.interactions[i].kind == "call" ==>
      now.interactions[i] in start.interactions
  }

  ghost predicate NoFoldInFlight(ws: seq<Write>) {
    forall i :: 0 <= i < |ws| ==> ws[i].WriteClose? ==> Strip(FoldContent(ws[i].body)) == ""
  }

  lemma FoldlessStep(start: Tables, c: Call, a: Action, tenant: string)
    requires NoneFolded(start, c.tables) && NoFoldInFlight(c.inflight) && !a.CloseWith?
    ensures NoneFolded(start, Step(c, a, tenant).tables) && NoFoldInFlight(Step(c, a, tenant).inflight)
  {
    if a.Serve? && a.i < |c.inflight| && c.inflight[a.i].WriteForget? {
      var rows, digits := c.tables.interactions, Digits(c.inflight[a.i].phone);
      forall i | 0 <= i < |Without(rows, tenant, digits)|
        ensures Without(rows, tenant, digits)[i] in rows
      {
        WithoutIsFrom(rows, tenant, digits, i);
      }
    }
    if a.Close? {
      assert Strip(FoldContent(AgentClose(c.lastPhone))) == "";
    }
  }

  /** Through any call closed by its agent, no conversation is ever folded into memory. */
  lemma {:induction false} AgentNeverFolds(c: Call, acts: seq<Action>, tenant: string)
    requires NoFoldInFlight(c.inflight) && forall i :: 0 <= i < |acts| ==> !acts[i].CloseWith?
    ensures NoneFolded(c.tables, Exec(c, acts, tenant).tables) && NoFoldInFlight(Exec(c, acts, tenant).inflight)
  {
    if acts != [] {
      AgentNeverFolds(c, acts[..|acts| - 1], tenant);
      FoldlessStep(c.tables, Exec(c, acts[..|acts| - 1], tenant), acts[|acts| - 1], tenant);
    }
  }
}
