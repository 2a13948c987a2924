/**
 * The application state every page reads: settings, the three record lists,
 * the selected year, the signed-in user and the loading and admin flags, as
 * `refreshData`, `login` and `logout` change them.
 */
module AppContext {
  import opened Wrappers
  import opened Types
  import LoginRoute

  /** A response body that should hold a list: either it is an array, or it is anything else. */
  datatype Listing<T> = Listing(items: seq<T>) | NotAList

  /** `Array.isArray(data) ? data : []` */
  function ListOf<T>(l: Listing<T>): (r: seq<T>)
    ensures l.NotAList? ==> r == []
    ensures l.Listing? ==> r == l.items
  {
    match l
    case Listing(items) => items
    case NotAList => []
  }

  /** The settings body: a settings object, an object with an `error` field, or a falsy value. */
  datatype SettingsBody = SettingsValue(value: Settings) | SettingsError | NoSettings

  /** The four bodies `refreshData` reads, once every fetch and every `json()` has succeeded. */
  datatype Responses = Responses(settings: SettingsBody, years: Listing<Year>, months: Listing<Month>,
                                 days: Listing<Day>)

  /** `years.find((y) => y.isCurrent)` */
  function FirstCurrent(years: seq<Year>): (r: Option<nat>)
    ensures r.None? <==> forall i :: 0 <= i < |years| ==> !years[i].isCurrent
    ensures r.Some? ==> r.value < |years| && years[r.value].isCurrent
                        && forall j :: 0 <= j < r.value ==> !years[j].isCurrent
  {
    if |years| == 0 then None
    else if years[0].isCurrent then Some(0)
    else
      var r := FirstCurrent(years[1..]);
      if r.Some? then Some(r.value + 1) else None
  }

  /**
   * The selected year after a refresh: a year already selected stays; with
   * none selected and some years loaded, `currentYear?.id || years[0].id`.
   */
  function ChosenYear(selectedYear: string, years: seq<Year>): (r: string)
    ensures selectedYear != "" || |years| == 0 ==> r == selectedYear
    ensures selectedYear == "" && |years| > 0 ==> exists i :: 0 <= i < |years| && years[i].id == r
  {
    if |years| > 0 && selectedYear == "" then
      match FirstCurrent(years)
      case Some(i) => if years[i].id != "" then years[i].id else years[0].id
      case None => years[0].id
    else selectedYear
  }

  /** With none selected, the first current year wins, whatever its position. */
  lemma CurrentYearChosen(years: seq<Year>, i: nat)
    requires i < |years| && years[i].isCurrent && years[i].id != ""
    requires forall j :: 0 <= j < i ==> !years[j].isCurrent
    ensures ChosenYear("", years) == years[i].id
  {
  }

  /** With none selected and no current year, the first year is chosen. */
  lemma FirstYearOtherwise(years: seq<Year>)
    requires |years| > 0 && forall i :: 0 <= i < |years| ==> !years[i].isCurrent
    ensures ChosenYear("", years) == years[0].id
  {
  }

  class AppState {
    var settings: Settings
    var years: seq<Year>
    var months: seq<Month>
    var days: seq<Day>
    var currentUser: Option<LoginRoute.PublicUser>
    var selectedYear: string
    var isLoading: bool
    var isAdmin: bool

    /** The administrator flag is set exactly while a user is signed in. */
    predicate SignedInIffAdmin()
      reads this
    {
      isAdmin <==> currentUser.Some?
    }

    /** The initial state: blank settings, empty lists, nothing selected, loading. */
    constructor ()
      ensures settings == Settings("", "", "") && years == [] && months == [] && days == []
      ensures currentUser == None && selectedYear == "" && isLoading && !isAdmin
      ensures SignedInIffAdmin()
    {
      settings := Settings("", "", "");
      years := [];
      months := [];
      days := [];
      currentUser := None;
      selectedYear := "";
      isLoading := true;
      isAdmin := false;
    }

    /**
     * `refreshData()`: `responses` is None when a fetch or a `json()` threw.
     * Settings change only for a settings object; a body that is not an
     * array becomes `[]`; on an exception the lists are emptied and the
     * settings and the selection kept. Loading ends either way.
     */
    method Refresh(responses: Option<Responses>)
      modifies this
      ensures responses.None? ==> years == [] && months == [] && days == []
                                  && settings == old(settings) && selectedYear == old(selectedYear)
      ensures responses.Some? ==>
                years == ListOf(responses.value.years) && months == ListOf(responses.value.months)
                && days == ListOf(responses.value.days)
                && selectedYear == ChosenYear(old(selectedYear), years)
                && settings == (if responses.value.settings.SettingsValue? then responses.value.settings.value
                                else old(settings))
      ensures !isLoading
      ensures currentUser == old(currentUser) && isAdmin == old(isAdmin)
    {
      isLoading := true;
      if responses.None? {
        years := [];
        months := [];
        days := [];
      } else {
        var r := responses.value;
        if r.settings.SettingsValue? {
          settings := r.settings.value;
        }
        var validYears := ListOf(r.years);
        years := validYears;
        months := ListOf(r.months);
        days := ListOf(r.days);
        if |validYears| > 0 && selectedYear == "" {
          var current := FirstCurrent(validYears);
          if current.Some? && validYears[current.value].id != "" {
            selectedYear := validYears[current.value].id;
          } else {
            selectedYear := validYears[0].id;
          }
        }
      }
      isLoading := false;
    }

    /**
     * `login(username, password)`: `reply` is the route's answer, None when
     * the call or its `json()` threw. Only a success signs the user in.
     */
    method Login(reply: Option<LoginRoute.LoginReply>) returns (ok: bool)
      modifies this
      ensures ok <==> reply.Some? && reply.value.LoggedIn?
      ensures ok ==> currentUser == Some(reply.value.user) && isAdmin
      ensures !ok ==> currentUser == old(currentUser) && isAdmin == old(isAdmin)
      ensures old(SignedInIffAdmin()) ==> SignedInIffAdmin()
      ensures settings == old(settings) && years == old(years) && months == old(months) && days == old(days)
      ensures selectedYear == old(selectedYear) && isLoading == old(isLoading)
    {
      if reply.Some? && reply.value.LoggedIn? {
        currentUser := Some(reply.value.user);
        isAdmin := true;
        return true;
      }
      return false;
    }

    /** `logout()` */
    method Logout()
      modifies this
      ensures currentUser == None && !isAdmin
      ensures SignedInIffAdmin()
      ensures settings == old(settings) && years == old(years) && months == old(months) && days == old(days)
      ensures selectedYear == old(selectedYear) && isLoading == old(isLoading)
    {
      currentUser := None;
      isAdmin := false;
    }

    /** The year selector (`setSelectedYear`). */
    method SelectYear(yearId: string)
      modifies this
      ensures selectedYear == yearId
      ensures settings == old(settings) && years == old(years) && months == old(months) && days == old(days)
      ensures currentUser == old(currentUser) && isAdmin == old(isAdmin) && isLoading == old(isLoading)
    {
      selectedYear := yearId;
    }
  }
}
