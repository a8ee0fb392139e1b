/**
 * The administrator's activity-history page: the rows fetched from
 * `user_activity_logs` (with each row's joined profile), the category and
 * text filter applied to them, the per-row presentation choices, and the
 * page's view state `logs` / `loading`.
 */
module AdminHistory {
  import opened Wrappers
  import opened Text
  import opened Sequences

  /** The joined `profiles:user_id(email, full_name)` projection; each column may be null. */
  datatype Profile = Profile(email: Option<string>, fullName: Option<string>)

  /**
   * One row of `user_activity_logs`. `createdAt` is the row's timestamp as a
   * number; `profiles` is missing when the join found no profile. The
   * `metadata` column is only ever rendered and is not part of this model.
   */
  datatype LogEntry = LogEntry(
    id: string,
    userId: string,
    activityType: string,
    description: Option<string>,
    createdAt: int,
    profiles: Option<Profile>)

  /** The row's email, missing when the profile or its email column is missing. */
  function EmailOf(e: LogEntry): Option<string> {
    if e.profiles.Some? then e.profiles.value.email else None
  }

  /** The row's full name, missing when the profile or its name column is missing. */
  function FullNameOf(e: LogEntry): Option<string> {
    if e.profiles.Some? then e.profiles.value.fullName else None
  }

  // ---------------------------------------------------------------------
  // The filter
  // ---------------------------------------------------------------------

  /** The value of the category selector that lets every activity type through. */
  const AllActivities := "all"

  predicate MatchesFilter(e: LogEntry, filter: string) {
    filter == AllActivities || e.activityType == filter
  }

  /**
   * One column's test: the lower-cased column includes the lower-cased
   * search text. A missing column makes the optional chain yield
   * `undefined`, which counts as false.
   */
  predicate FieldMatches(field: Option<string>, search: string) {
    field.Some? && ContainsIgnoringCase(field.value, search)
  }

  predicate MatchesSearch(e: LogEntry, search: string) {
    || FieldMatches(e.description, search)
    || FieldMatches(EmailOf(e), search)
    || FieldMatches(FullNameOf(e), search)
  }

  /**
   * The callback given to `logs.filter`. A kept row always passes the
   * category test and always has some text column.
   */
  predicate Keep(e: LogEntry, filter: string, search: string)
    ensures Keep(e, filter, search) ==> filter == AllActivities || e.activityType == filter
    ensures Keep(e, filter, search) ==> HasText(e)
  {
    MatchesFilter(e, filter) && MatchesSearch(e, search)
  }

  /** `filteredLogs`: the fetched rows the page shows for the current selector and search box. */
  function FilteredLogs(logs: seq<LogEntry>, filter: string, search: string): (shown: seq<LogEntry>)
    ensures |shown| <= |logs|
    ensures forall e :: e in shown <==> e in logs && Keep(e, filter, search)
  {
    Filter(logs, e => Keep(e, filter, search))
  }

  /** The searchable text columns that are present on a row, in the order the filter tries them. */
  function TextFields(e: LogEntry): (fields: seq<string>)
    ensures |fields| <= 3
    ensures e.description.Some? ==> e.description.value in fields
    ensures EmailOf(e).Some? ==> EmailOf(e).value in fields
    ensures FullNameOf(e).Some? ==> FullNameOf(e).value in fields
    ensures forall t :: t in fields ==> Some(t) in [e.description, EmailOf(e), FullNameOf(e)]
  {
    (if e.description.Some? then [e.description.value] else [])
    + (if EmailOf(e).Some? then [EmailOf(e).value] else [])
    + (if FullNameOf(e).Some? then [FullNameOf(e).value] else [])
  }

  predicate HasText(e: LogEntry) {
    TextFields(e) != []
  }

  /**
   * A row is kept exactly when the category test passes and some present
   * text column contains the search text, both lower-cased.
   */
  lemma KeepIff(e: LogEntry, filter: string, search: string)
    ensures Keep(e, filter, search) <==>
      && (filter == AllActivities || e.activityType == filter)
      && exists t :: t in TextFields(e) && ContainsIgnoringCase(t, search)
  {
  }

  /** The filter's result: an order-preserving selection of the fetched rows, with nothing added or repeated. */
  lemma FilteredLogsSelects(logs: seq<LogEntry>, filter: string, search: string)
    ensures IsSubsequence(FilteredLogs(logs, filter, search), logs)
    ensures forall e :: e in FilteredLogs(logs, filter, search) <==> e in logs && Keep(e, filter, search)
    ensures forall e :: multiset(FilteredLogs(logs, filter, search))[e] ==
                        if Keep(e, filter, search) then multiset(logs)[e] else 0
  {
    FilterIsSubsequence(logs, e => Keep(e, filter, search));
    FilterCounts(logs, e => Keep(e, filter, search));
  }

  /** With an empty search box, a row passes the text test exactly when it has some text column. */
  lemma EmptySearchNeedsText(e: LogEntry)
    ensures MatchesSearch(e, "") <==> HasText(e)
  {
    if e.description.Some? { ContainsEmpty(Lower(e.description.value)); }
    if EmailOf(e).Some? { ContainsEmpty(Lower(EmailOf(e).value)); }
    if FullNameOf(e).Some? { ContainsEmpty(Lower(FullNameOf(e).value)); }
  }

  /**
   * With the selector on "all" and an empty search box the page shows
   * exactly the rows that have some text column; a row whose description,
   * email and full name are all missing is still hidden.
   */
  lemma AllWithEmptySearch(logs: seq<LogEntry>)
    ensures FilteredLogs(logs, AllActivities, "") == Filter(logs, HasText)
    ensures FilteredLogs(logs, AllActivities, "") == logs <==> forall e :: e in logs ==> HasText(e)
  {
    forall e | e in logs ensures Keep(e, AllActivities, "") == HasText(e) {
      EmptySearchNeedsText(e);
    }
    FilterAgree(logs, e => Keep(e, AllActivities, ""), HasText);
    FilterKeepsAll(logs, HasText);
  }

  /** A row with no text column is never shown, whatever the selector and search box hold. */
  lemma TextlessRowHidden(logs: seq<LogEntry>, e: LogEntry, filter: string, search: string)
    requires !HasText(e)
    ensures e !in FilteredLogs(logs, filter, search)
  {
  }

  /**
   * Selecting a row's own type keeps it exactly when "all" would; selecting
   * any other type (other than "all") hides it.
   */
  lemma CategorySelection(e: LogEntry, filter: string, search: string)
    ensures Keep(e, e.activityType, search) == Keep(e, AllActivities, search)
    ensures filter != AllActivities && filter != e.activityType ==> !Keep(e, filter, search)
  {
  }

  /** Changing the letter case of the search text does not change what is shown. */
  lemma SearchIgnoresCase(logs: seq<LogEntry>, filter: string, search: string, search': string)
    requires EqualIgnoringCase(search, search')
    ensures FilteredLogs(logs, filter, search) == FilteredLogs(logs, filter, search')
  {
    FilterAgree(logs, e => Keep(e, filter, search), e => Keep(e, filter, search'));
  }

  predicate SameFieldIgnoringCase(a: Option<string>, b: Option<string>) {
    a.Some? == b.Some? && (a.Some? ==> EqualIgnoringCase(a.value, b.value))
  }

  /** Changing the letter case of a row's searched columns does not change whether it is kept. */
  lemma RowCaseIrrelevant(e: LogEntry, e': LogEntry, filter: string, search: string)
    requires e.activityType == e'.activityType
    requires SameFieldIgnoringCase(e.description, e'.description)
    requires SameFieldIgnoringCase(EmailOf(e), EmailOf(e'))
    requires SameFieldIgnoringCase(FullNameOf(e), FullNameOf(e'))
    ensures Keep(e, filter, search) == Keep(e', filter, search)
  {
    var fields, fields' := [e.description, EmailOf(e), FullNameOf(e)], [e'.description, EmailOf(e'), FullNameOf(e')];
    forall k | 0 <= k < 3 && fields[k].Some?
      ensures ContainsIgnoringCase(fields[k].value, search) == ContainsIgnoringCase(fields'[k].value, search)
    {
      ContainsIgnoringCaseRespectsCase(fields[k].value, fields'[k].value, search, search);
    }
  }

  /** Applying the filter to its own result changes nothing. */
  lemma FilteredLogsIdempotent(logs: seq<LogEntry>, filter: string, search: string)
    ensures FilteredLogs(FilteredLogs(logs, filter, search), filter, search) == FilteredLogs(logs, filter, search)
  {
    FilterIdempotent(logs, e => Keep(e, filter, search));
  }

  /** A description "Payment Approved" is found by the search text "approved". */
  lemma SearchExample(e: LogEntry)
    requires e.description == Some("Payment Approved")
    ensures Keep(e, AllActivities, "approved")
  {
    var d := "Payment Approved";
    assert Lower(d)[8..16] == "approved" by {
      LowerSlice(d, 8, 16);
      assert d[8..16] == ['A'] + "pproved";
      LowerCons('A', "pproved");
      LowerWithoutCapitals("pproved");
    }
    assert Lower("approved") == "approved" by { LowerWithoutCapitals("approved"); }
    assert ContainsIgnoringCase(d, "approved") by { ContainsSlice(Lower(d), 8, 16); }
    assert FieldMatches(e.description, "approved");
  }

  // ---------------------------------------------------------------------
  // What the query promises about its rows (assumed, not enforced here)
  // ---------------------------------------------------------------------

  /** The `.limit(100)` of the query. */
  const PageSize := 100

  /** Rows as the query returns them: newest first and at most one page. */
  predicate IsRecentPage(rows: seq<LogEntry>) {
    && |rows| <= PageSize
    && forall i, j :: 0 <= i < j < |rows| ==> rows[j].createdAt <= rows[i].createdAt
  }

  /** Filtering a newest-first page yields a newest-first page. */
  lemma FilteredPageStaysRecentFirst(logs: seq<LogEntry>, filter: string, search: string)
    requires IsRecentPage(logs)
    ensures IsRecentPage(FilteredLogs(logs, filter, search))
  {
    FilterKeepsOrder(logs, e => Keep(e, filter, search), (a: LogEntry, b: LogEntry) => b.createdAt <= a.createdAt);
  }

  /**
   * Three described rows fetched newest first are all shown, newest first,
   * with the selector on "all" and an empty search box.
   */
  lemma ThreeRowScenario(first: LogEntry, second: LogEntry, third: LogEntry)
    requires first.description.Some? && second.description.Some? && third.description.Some?
    requires third.createdAt <= second.createdAt <= first.createdAt
    ensures FilteredLogs([first, second, third], AllActivities, "") == [first, second, third]
    ensures IsRecentPage(FilteredLogs([first, second, third], AllActivities, ""))
  {
    AllWithEmptySearch([first, second, third]);
  }

  // ---------------------------------------------------------------------
  // Presentation of one row
  // ---------------------------------------------------------------------

  /** The activity types the page knows by name. */
  const Registration := "registration"
  const PaymentApproved := "payment_approved"
  const Login := "login"

  datatype Glyph = UserGlyph | CreditCardGlyph | LogInGlyph | ActivityGlyph

  /** The colour family of an icon or a type badge. */
  datatype Tone = Green | Blue | Gray

  datatype Icon = Icon(glyph: Glyph, tone: Tone)

  const KnownTypes := {Registration, PaymentApproved, Login}

  /**
   * `getIcon`: a glyph per known type and the generic activity glyph for
   * every other type, always in the colour of the type's badge.
   */
  function GetIcon(activityType: string): (icon: Icon)
    ensures icon.glyph == ActivityGlyph <==> activityType !in KnownTypes
    ensures icon.tone == GetBadgeColor(activityType)
  {
    match activityType
    case "registration" => Icon(UserGlyph, Green)
    case "payment_approved" => Icon(CreditCardGlyph, Blue)
    case "login" => Icon(LogInGlyph, Gray)
    case _ => Icon(ActivityGlyph, Gray)
  }

  /** `getBadgeColor`: green for registrations, blue for approved payments, grey otherwise. */
  function GetBadgeColor(activityType: string): (tone: Tone)
    ensures tone == Gray <==> activityType !in {Registration, PaymentApproved}
  {
    match activityType
    case "registration" => Green
    case "payment_approved" => Blue
    case "login" => Gray
    case _ => Gray
  }

  /** The three known types get three different icons, none of them the generic one. */
  lemma IconCases()
    ensures GetIcon(Registration).glyph != GetIcon(PaymentApproved).glyph
    ensures GetIcon(Registration).glyph != GetIcon(Login).glyph
    ensures GetIcon(PaymentApproved).glyph != GetIcon(Login).glyph
    ensures forall t :: t in KnownTypes ==> GetIcon(t).glyph != ActivityGlyph
  {
  }

  /**
   * Registrations are green and approved payments blue; logins and every
   * unknown type share the same grey badge.
   */
  lemma BadgeCases(activityType: string)
    ensures GetBadgeColor(Registration) == Green && GetBadgeColor(PaymentApproved) == Blue
    ensures activityType !in KnownTypes ==> GetBadgeColor(activityType) == GetBadgeColor(Login)
  {
  }

  /** The badge text: the first underscore of the type becomes a space, then all is upper-cased. */
  function TypeLabel(activityType: string): (typeLabel: string)
    ensures |typeLabel| == |activityType|
    ensures forall i :: 0 <= i < |typeLabel| ==> !IsLowerLetter(typeLabel[i])
    ensures forall i :: 0 <= i < |activityType| && typeLabel[i] != UpperChar(activityType[i]) ==>
      activityType[i] == '_' && typeLabel[i] == ' '
    ensures forall i, j :: 0 <= i < j < |activityType| && typeLabel[i] != UpperChar(activityType[i]) ==>
      typeLabel[j] == UpperChar(activityType[j])
  {
    Upper(ReplaceFirst(activityType, '_', ' '))
  }

  /** A type without an underscore is only upper-cased. */
  lemma TypeLabelWithoutUnderscore(activityType: string)
    requires '_' !in activityType
    ensures TypeLabel(activityType) == Upper(activityType)
  {
    ReplaceFirstAbsent(activityType, '_', ' ');
  }

  /**
   * Only the first underscore becomes a space: the part before it and the
   * part after it, which may hold more underscores, are only upper-cased.
   * So "payment_approved" reads "PAYMENT APPROVED".
   */
  lemma TypeLabelFirstUnderscore(before: string, after: string)
    requires '_' !in before
    ensures TypeLabel(before + "_" + after) == Upper(before) + " " + Upper(after)
  {
    ReplaceFirstSplit(before, after, '_', ' ');
    UpperAppend(before + " ", after);
    UpperAppend(before, " ");
  }

  predicate NonEmpty(field: Option<string>) {
    field.Some? && field.value != ""
  }

  /**
   * The avatar letter: the full name's first character, else the email's
   * first character upper-cased, else '?'. Indexing an empty string yields
   * `undefined`, so only non-empty columns count.
   */
  function AvatarInitial(e: LogEntry): (initial: char)
    ensures NonEmpty(FullNameOf(e)) ==> initial == DisplayName(e)[0]
    ensures !NonEmpty(FullNameOf(e)) ==> !IsLowerLetter(initial)
  {
    if NonEmpty(FullNameOf(e)) then FullNameOf(e).value[0]
    else if NonEmpty(EmailOf(e)) then UpperChar(EmailOf(e).value[0])
    else '?'
  }

  /** The name line: the full name when non-empty, else "Unknown User". */
  function DisplayName(e: LogEntry): (name: string)
    ensures name != ""
    ensures name == "Unknown User" || Some(name) == FullNameOf(e)
  {
    if NonEmpty(FullNameOf(e)) then FullNameOf(e).value else "Unknown User"
  }

  /**
   * When a row shows the user's own name, its avatar is that name's first
   * character, unchanged; otherwise the avatar is the upper-cased first
   * character of the email, or '?' when the email is missing or empty too.
   */
  lemma AvatarFollowsName(e: LogEntry)
    ensures NonEmpty(FullNameOf(e)) ==>
      DisplayName(e) == FullNameOf(e).value && AvatarInitial(e) == DisplayName(e)[0]
    ensures !NonEmpty(FullNameOf(e)) ==> DisplayName(e) == "Unknown User"
    ensures !NonEmpty(FullNameOf(e)) && NonEmpty(EmailOf(e)) ==>
      AvatarInitial(e) == UpperChar(EmailOf(e).value[0]) && !IsLowerLetter(AvatarInitial(e))
    ensures !NonEmpty(FullNameOf(e)) && !NonEmpty(EmailOf(e)) ==> AvatarInitial(e) == '?'
  {
  }

  /** What one table row or mobile card shows, apart from the timestamp and metadata. */
  datatype Row = Row(
    initial: char,
    name: string,
    email: Option<string>,
    badge: Tone,
    icon: Icon,
    typeLabel: string,
    description: Option<string>)

  function RenderRow(e: LogEntry): (row: Row)
    ensures row.badge == row.icon.tone
    ensures row.name != ""
    ensures forall i :: 0 <= i < |row.typeLabel| ==> !IsLowerLetter(row.typeLabel[i])
  {
    Row(AvatarInitial(e), DisplayName(e), EmailOf(e), GetBadgeColor(e.activityType),
        GetIcon(e.activityType), TypeLabel(e.activityType), e.description)
  }

  /** The body of the table (and of the card list). */
  datatype Body = LoadingHistory | NoHistoryFound | Rows(rows: seq<Row>)

  /** The loading message wins; an empty filtered list shows the "no history" message. */
  function RenderBody(loading: bool, shown: seq<LogEntry>): (b: Body)
    ensures loading <==> b == LoadingHistory
    ensures b == NoHistoryFound <==> !loading && shown == []
    ensures b.Rows? ==> |b.rows| == |shown| && forall i :: 0 <= i < |shown| ==> b.rows[i] == RenderRow(shown[i])
  {
    if loading then LoadingHistory
    else if shown == [] then NoHistoryFound
    else Rows(seq(|shown|, i requires 0 <= i < |shown| => RenderRow(shown[i])))
  }

  // ---------------------------------------------------------------------
  // The page's view state and the fetch
  // ---------------------------------------------------------------------

  /**
   * How the awaited query ends: a response carrying `data` and `error`, or a
   * rejected promise.
   */
  datatype QueryOutcome =
    | Response(data: Option<seq<LogEntry>>, error: Option<string>)
    | Rejected(reason: string)

  /** The rows `fetchLogs` stores, or None when it takes the `catch` path. */
  function StoredRows(outcome: QueryOutcome): (stored: Option<seq<LogEntry>>)
    ensures stored.Some? <==> outcome.Response? && outcome.error.None?
    ensures stored.Some? && outcome.data.Some? ==> stored.value == outcome.data.value
    ensures stored.Some? && outcome.data.None? ==> stored.value == []
  {
    match outcome
    case Response(data, None) => Some(data.GetOr([]))
    case Response(_, Some(_)) => None
    case Rejected(_) => None
  }

  /** The message written to the console when `fetchLogs` takes the `catch` path. */
  function FailureMessage(outcome: QueryOutcome): (message: Option<string>)
    ensures message.Some? <==> StoredRows(outcome).None?
  {
    match outcome
    case Response(_, error) => error
    case Rejected(reason) => Some(reason)
  }

  class HistoryView {
    var logs: seq<LogEntry>
    var loading: bool
    var filter: string
    var search: string
    /** Messages passed to `console.error`. */
    var errorLog: seq<string>

    /** The initial state of the page's `useState` hooks. */
    constructor ()
      ensures logs == [] && loading
      ensures filter == AllActivities && search == ""
      ensures errorLog == []
    {
      logs := [];
      loading := true;
      filter := AllActivities;
      search := "";
      errorLog := [];
    }

    /**
     * `fetchLogs`, once its query has settled with `outcome`: the rows are
     * replaced only on success, a failure is logged, and `loading` is
     * cleared on every path.
     */
    method FetchLogs(outcome: QueryOutcome)
      modifies this
      ensures !loading
      ensures StoredRows(outcome).Some? ==> logs == StoredRows(outcome).value
      ensures StoredRows(outcome).None? ==> logs == old(logs)
      ensures errorLog == old(errorLog) + (if FailureMessage(outcome).Some? then [FailureMessage(outcome).value] else [])
      ensures filter == old(filter) && search == old(search)
    {
      if outcome.Rejected? {
        errorLog := errorLog + [outcome.reason];
      } else if outcome.error.Some? {
        errorLog := errorLog + [outcome.error.value];
      } else {
        logs := if outcome.data.Some? then outcome.data.value else [];
      }
      loading := false;
    }

    /** The search box's `onChange`. */
    method SetSearch(text: string)
      modifies this`search
      ensures search == text
    {
      search := text;
    }

    /** The category selector's `onChange`. */
    method SetFilter(value: string)
      modifies this`filter
      ensures filter == value
    {
      filter := value;
    }

    /** The rows the page lists: the stored rows that pass the selector and search box. */
    function Shown(): (shown: seq<LogEntry>)
      reads this
      ensures |shown| <= |logs|
      ensures forall e :: e in shown <==> e in logs && Keep(e, filter, search)
    {
      FilteredLogs(logs, filter, search)
    }

    /** The loading message while loading, else the rows, or "no history" when none pass. */
    function Body(): (body: Body)
      reads this
      ensures loading <==> body == LoadingHistory
      ensures body == NoHistoryFound <==> !loading && Shown() == []
    {
      RenderBody(loading, Shown())
    }
  }

  /**
   * Mounting the page and letting its one fetch settle: loading is over, and
   * the page shows the filtered fetched rows, or nothing after a failure.
   */
  method MountAndLoad(outcome: QueryOutcome, filter: string, search: string)
    returns (loading: bool, shown: seq<LogEntry>, body: Body)
    ensures !loading
    ensures StoredRows(outcome).Some? ==> shown == FilteredLogs(StoredRows(outcome).value, filter, search)
    ensures StoredRows(outcome).None? ==> shown == [] && body == NoHistoryFound
    ensures body == NoHistoryFound <==> shown == []
  {
    var view := new HistoryView();
    view.SetFilter(filter);
    view.SetSearch(search);
    view.FetchLogs(outcome);
    loading, shown, body := view.loading, view.Shown(), view.Body();
  }
}
