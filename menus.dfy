/** The admin menu identifiers of ui/Menu.java and their lookup by callback id. */
module Menus {
  import opened Wrappers

  datatype Menu =
    | MainMenu | CreatePoll | WeeklySettings | WeeklyConfig | ConfirmPoll
    | EditPollQuestion | EditPollPositive | EditPollNegative | EditPollVotes
  {
    /** getId: the callback id each constant is declared with. */
    function Id(): string {
      match this
      case MainMenu => "main:menu"
      case CreatePoll => "main:create"
      case WeeklySettings => "main:weekly"
      case WeeklyConfig => "weekly:config"
      case ConfirmPoll => "poll:confirm"
      case EditPollQuestion => "poll:edit:question"
      case EditPollPositive => "poll:edit:positive"
      case EditPollNegative => "poll:edit:negative"
      case EditPollVotes => "poll:edit:votes"
    }
  }

  /** `values()`: the constants in declaration order. */
  function AllMenus(): seq<Menu> {
    [MainMenu, CreatePoll, WeeklySettings, WeeklyConfig, ConfirmPoll,
     EditPollQuestion, EditPollPositive, EditPollNegative, EditPollVotes]
  }

  /** `values()` lists every constant. */
  lemma AllMenusComplete()
    ensures forall m: Menu :: m in AllMenus()
  {
    forall m: Menu ensures m in AllMenus() {
      match m
      case MainMenu =>
      case CreatePoll =>
      case WeeklySettings =>
      case WeeklyConfig =>
      case ConfirmPoll =>
      case EditPollQuestion =>
      case EditPollPositive =>
      case EditPollNegative =>
      case EditPollVotes =>
    }
  }

  /** The first constant of `menus` whose id equals `id`. */
  function FindById(menus: seq<Menu>, id: string): (r: Option<Menu>)
    ensures r.Some? ==> r.value in menus && r.value.Id() == id
    ensures r.None? <==> forall m :: m in menus ==> m.Id() != id
  {
    if menus == [] then None
    else if menus[0].Id() == id then Some(menus[0])
    else
      var r := FindById(menus[1..], id);
      assert forall m :: m in menus ==> m == menus[0] || m in menus[1..];
      r
  }

  /** fromId: the constant with exactly this id; null (None) for null or any other string. */
  function FromId(id: Option<string>): (r: Option<Menu>)
    ensures r.Some? ==> id.Some? && r.value.Id() == id.value
    ensures r.None? <==> id.None? || forall m: Menu :: m.Id() != id.value
  {
    AllMenusComplete();
    if id.None? then None else FindById(AllMenus(), id.value)
  }

  /** No two constants share an id, and no id is empty. */
  lemma IdsDistinctAndNonEmpty(a: Menu, b: Menu)
    ensures a.Id() == b.Id() ==> a == b
    ensures a.Id() != []
  {
  }

  /** Every constant is found again from its own id. */
  lemma FromIdOfId(m: Menu)
    ensures FromId(Some(m.Id())) == Some(m)
  {
    var r := FromId(Some(m.Id()));
    IdsDistinctAndNonEmpty(r.value, m);
  }

  /** Matching is exact: the upper-case spelling of an id names no menu. */
  lemma FromIdIsCaseSensitive(id: string)
    requires id == "MAIN:MENU"
    ensures FromId(Some(id)) == None
  {
    forall m: Menu ensures m.Id() != id {
      assert m.Id()[0] != id[0];
    }
  }
}
