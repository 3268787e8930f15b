/** The ability page (app/pokemon/page.tsx): choosing the English effect, formatting ability
    names, and what each of its two sections shows given its own loading and error slots. */
module Pokemon {
  import opened Types
  import opened Text
  import opened Arrays

  /** One entry of the ability list response (`PokemonAbility`). */
  datatype Ability = Ability(name: string, url: string)

  datatype Language = Language(name: string)

  datatype EffectEntry = EffectEntry(effect: string, language: Language)

  /** `PokemonAbilityDetail` */
  datatype AbilityDetail = AbilityDetail(effectEntries: seq<EffectEntry>, name: string)

  const NoEnglishEffect := "No English effect available"
  const ListFetchFailed := "Failed to fetch abilities"
  const DetailFetchFailed := "Failed to fetch ability detail"
  const UnknownError := "An error occurred"

  predicate IsEnglish(entry: EffectEntry)
  {
    entry.language.name == "en"
  }

  /** `getEnglishEffect`: null without a detail; otherwise the effect of the first English entry,
      or the fallback when there is none or its effect is the empty string (`||`). */
  function EnglishEffect(detail: Option<AbilityDetail>): Option<string>
  {
    match detail
    case None => None
    case Some(d) =>
      match FindIndex(d.effectEntries, IsEnglish)
      case None => Some(NoEnglishEffect)
      case Some(i) =>
        var effect := d.effectEntries[i].effect;
        Some(if effect == "" then NoEnglishEffect else effect)
  }

  /** The effect shown: the first English entry's, in array order, or the fallback. */
  lemma EnglishEffectSpec(detail: Option<AbilityDetail>)
    ensures detail.None? <==> EnglishEffect(detail).None?
    ensures detail.Some? && (forall i :: 0 <= i < |detail.value.effectEntries| ==> !IsEnglish(detail.value.effectEntries[i]))
        ==> EnglishEffect(detail) == Some(NoEnglishEffect)
    ensures detail.Some? ==>
      var es := detail.value.effectEntries;
      forall i :: 0 <= i < |es| && IsEnglish(es[i]) && (forall j :: 0 <= j < i ==> !IsEnglish(es[j])) ==>
        EnglishEffect(detail) == Some(if es[i].effect == "" then NoEnglishEffect else es[i].effect)
  {
    if detail.Some? {
      var es := detail.value.effectEntries;
      match FindIndex(es, IsEnglish)
      case None =>
      case Some(k) =>
        forall i | 0 <= i < |es| && IsEnglish(es[i]) && (forall j :: 0 <= j < i ==> !IsEnglish(es[j]))
          ensures i == k
        {
        }
    }
  }

  /** `name.replace('-', ' ')`: the list rows show this, as it is. */
  function DisplayName(name: string): string
  {
    ReplaceFirst(name, '-', ' ')
  }

  /** The detail title: the display name, upper-cased. */
  function DetailTitle(name: string): string
  {
    ToUpper(DisplayName(name))
  }

  /** Only the first hyphen becomes a space. */
  lemma DisplayNameExample()
    ensures DisplayName("a-b-c") == "a b-c"
  {
    ReplaceFirstAt("a-b-c", '-', ' ', 1);
    assert "a-b-c"[..1] == "a" && "a-b-c"[2..] == "b-c";
  }

  /** One row of the abilities table: its number from 1, display name and URL. */
  datatype Row = Row(number: nat, name: string, url: string)

  function Rows(abilities: seq<Ability>): (rows: seq<Row>)
  {
    seq(|abilities|, i requires 0 <= i < |abilities| =>
      Row(i + 1, DisplayName(abilities[i].name), abilities[i].url))
  }

  /** The detail card's body. */
  datatype DetailView = DetailView(title: string, effect: string)

  /** What a section shows. `Nothing` is the detail section's `null` when no detail arrived. */
  datatype Panel<T> = Spinner | Failed(message: string) | Showing(content: T) | Nothing

  /** A JavaScript string slot is truthy when it is set and not empty. */
  predicate Truthy(slot: Option<string>)
  {
    slot.Some? && slot.value != ""
  }

  function ListPanel(loading: bool, error: Option<string>, abilities: seq<Ability>): Panel<seq<Row>>
  {
    if loading then Spinner
    else if Truthy(error) then Failed(error.value)
    else Showing(Rows(abilities))
  }

  function DetailPanel(loading: bool, error: Option<string>, detail: Option<AbilityDetail>): Panel<DetailView>
  {
    if loading then Spinner
    else if Truthy(error) then Failed(error.value)
    else if detail.Some? then Showing(DetailView(DetailTitle(detail.value.name), EnglishEffect(detail).value))
    else Nothing
  }

  /** The precedence in each section: the spinner while loading, then a non-empty error, then the content. */
  lemma PanelPrecedence(loading: bool, error: Option<string>, abilities: seq<Ability>, detail: Option<AbilityDetail>)
    ensures ListPanel(loading, error, abilities).Spinner? <==> loading
    ensures ListPanel(loading, error, abilities).Failed? <==> !loading && Truthy(error)
    ensures ListPanel(loading, error, abilities).Failed? ==> ListPanel(loading, error, abilities).message == error.value
    ensures ListPanel(loading, error, abilities).Showing? <==> !loading && !Truthy(error)
    ensures ListPanel(loading, error, abilities).Showing? ==>
      var rows := ListPanel(loading, error, abilities).content;
      |rows| == |abilities| && forall i :: 0 <= i < |rows| ==> rows[i].number == i + 1 && rows[i].name == DisplayName(abilities[i].name)
    ensures DetailPanel(loading, error, detail).Spinner? <==> loading
    ensures DetailPanel(loading, error, detail).Failed? <==> !loading && Truthy(error)
    ensures DetailPanel(loading, error, detail).Failed? ==> DetailPanel(loading, error, detail).message == error.value
    ensures DetailPanel(loading, error, detail).Showing? <==> !loading && !Truthy(error) && detail.Some?
    ensures DetailPanel(loading, error, detail).Showing? ==>
      && DetailPanel(loading, error, detail).content.title == DetailTitle(detail.value.name)
      && DetailPanel(loading, error, detail).content.effect == EnglishEffect(detail).value
    ensures DetailPanel(loading, error, detail).Nothing? <==> !loading && !Truthy(error) && detail.None?
  {
  }

  /** How a fetch ended: its decoded body, a non-2xx status, or a thrown value (an `Error`'s
      message, or `None` for anything that is not an `Error`). */
  datatype FetchOutcome<T> = Received(body: T) | NotOk | Threw(message: Option<string>)

  /** The text the catch block stores for each failure. */
  function FailureMessage<T>(outcome: FetchOutcome<T>, notOkMessage: string): string
    requires !outcome.Received?
  {
    match outcome
    case NotOk => notOkMessage
    case Threw(m) => if m.Some? then m.value else UnknownError
  }

  /** The page component's state: two independent fetches, each with its own slots. */
  class PokemonPage {
    var abilities: seq<Ability>
    var abilityDetail: Option<AbilityDetail>
    var isLoadingList: bool
    var isLoadingDetail: bool
    var errorList: Option<string>
    var errorDetail: Option<string>

    constructor ()
      ensures abilities == [] && abilityDetail == None
      ensures isLoadingList && isLoadingDetail
      ensures errorList == None && errorDetail == None
    {
      abilities := [];
      abilityDetail := None;
      isLoadingList := true;
      isLoadingDetail := true;
      errorList := None;
      errorDetail := None;
    }

    function ListSection(): Panel<seq<Row>>
      reads this
    {
      ListPanel(isLoadingList, errorList, abilities)
    }

    function DetailSection(): Panel<DetailView>
      reads this
    {
      DetailPanel(isLoadingDetail, errorDetail, abilityDetail)
    }

    /** The end of the list fetch: the results or the error message land in the list's slots and
        its loading flag drops; the detail's slots, and so its section, are untouched. */
    method FinishListFetch(outcome: FetchOutcome<seq<Ability>>)
      modifies this
      ensures !isLoadingList
      ensures outcome.Received? ==> abilities == outcome.body && errorList == old(errorList)
      ensures !outcome.Received? ==> errorList == Some(FailureMessage(outcome, ListFetchFailed)) && abilities == old(abilities)
      ensures abilityDetail == old(abilityDetail) && isLoadingDetail == old(isLoadingDetail) && errorDetail == old(errorDetail)
      ensures DetailSection() == old(DetailSection())
    {
      match outcome {
        case Received(results) => abilities := results;
        case NotOk => errorList := Some(ListFetchFailed);
        case Threw(m) => errorList := Some(if m.Some? then m.value else UnknownError);
      }
      isLoadingList := false;
    }

    /** The end of the detail fetch, symmetric to the list's. */
    method FinishDetailFetch(outcome: FetchOutcome<AbilityDetail>)
      modifies this
      ensures !isLoadingDetail
      ensures outcome.Received? ==> abilityDetail == Some(outcome.body) && errorDetail == old(errorDetail)
      ensures !outcome.Received? ==> errorDetail == Some(FailureMessage(outcome, DetailFetchFailed)) && abilityDetail == old(abilityDetail)
      ensures abilities == old(abilities) && isLoadingList == old(isLoadingList) && errorList == old(errorList)
      ensures ListSection() == old(ListSection())
    {
      match outcome {
        case Received(data) => abilityDetail := Some(data);
        case NotOk => errorDetail := Some(DetailFetchFailed);
        case Threw(m) => errorDetail := Some(if m.Some? then m.value else UnknownError);
      }
      isLoadingDetail := false;
    }
  }

  /** A failed list fetch beside a successful detail fetch: the list section shows its error and the
      detail section its content; one failure does not blank the other section. */
  method ListFailsDetailLoads(detail: AbilityDetail) returns (list: Panel<seq<Row>>, shown: Panel<DetailView>)
    ensures list == Failed(ListFetchFailed)
    ensures shown == Showing(DetailView(DetailTitle(detail.name), EnglishEffect(Some(detail)).value))
  {
    var page := new PokemonPage();
    page.FinishListFetch(NotOk);
    page.FinishDetailFetch(Received(detail));
    list := page.ListSection();
    shown := page.DetailSection();
  }
}
