/**
 * The request guards of app/api/validators.py. The session lookups they make
 * (`get` by primary key, `get_id_by_name`) are modelled as a `Store` of two
 * maps over the project table.
 */
module Validators {
  import opened Wrappers
  import opened Models

  /** The `HTTPException` a guard raises: a status code and a detail message. */
  datatype HttpError = HttpError(statusCode: int, detail: string)

  const NameTaken := HttpError(400, "Проект с таким именем уже существует!")
  const ProjectNotFound := HttpError(404, "Проект не найден!")
  const ProjectHasMoney := HttpError(400, "В проект были внесены средства, не подлежит удалению!")
  const ProjectClosed := HttpError(400, "Закрытый проект нельзя редактировать!")
  const TargetBelowInvested := HttpError(422, "Нельзя установить требуемую сумму меньше внесенной")

  /**
   * The project table as the guards see it: rows by primary key, and the id
   * of the row holding each name (`select(CharityProject.id).where(name == ...)`).
   */
  datatype Store = Store(byId: map<int, CharityProject>, idByName: map<string, int>)

  /**
   * The two maps describe the same table, keyed by `id` and by the unique
   * `name`, and every stored name fits the `String(100)` column.
   */
  ghost predicate Indexed(store: Store)
    reads store.byId.Values
    ensures Indexed(store) ==> store.idByName.Values == store.byId.Keys
  {
    && (forall id :: id in store.byId ==> store.byId[id].id == id)
    && (forall name :: name in store.idByName ==>
          store.idByName[name] in store.byId && store.byId[store.idByName[name]].name == name)
    && (forall id :: id in store.byId ==>
          store.byId[id].name in store.idByName && store.idByName[store.byId[id].name] == id)
    && (forall id :: id in store.byId ==> NameFitsColumn(store.byId[id].name))
  }

  /** `check_name_duplicate`: refuse a name the index already holds. */
  function CheckNameDuplicate(store: Store, name: string): (r: Outcome<HttpError>)
    ensures r == Pass || r == Fail(NameTaken)
    ensures r.Fail? <==> name in store.idByName
  {
    if name in store.idByName then Fail(NameTaken) else Pass
  }

  /** With a consistent index, a name is refused exactly when some project already has it. */
  lemma NameDuplicateIffNameTaken(store: Store, name: string)
    requires Indexed(store)
    ensures CheckNameDuplicate(store, name).Fail? <==> exists id :: id in store.byId && store.byId[id].name == name
  {
    if name in store.idByName {
      var id := store.idByName[name];
      assert id in store.byId && store.byId[id].name == name;
    }
  }

  /**
   * Creating a project whose name passed `check_name_duplicate`, under an id
   * not yet used, with a name that fits its column, keeps the index consistent.
   */
  lemma CreateKeepsIndexed(store: Store, project: CharityProject)
    requires Indexed(store)
    requires CheckNameDuplicate(store, project.name) == Pass
    requires project.id !in store.byId && NameFitsColumn(project.name)
    ensures Indexed(Store(store.byId[project.id := project], store.idByName[project.name := project.id]))
  {
    var byId, idByName := store.byId[project.id := project], store.idByName[project.name := project.id];
    forall id | id in byId
      ensures byId[id].name in idByName && idByName[byId[id].name] == id
    {
      if id != project.id {
        assert byId[id] == store.byId[id];
        assert store.byId[id].name != project.name;
      }
    }
  }

  /** `check_charityproject_exists`: the project with that id, or 404. */
  function CheckCharityProjectExists(store: Store, id: int): (r: Result<CharityProject, HttpError>)
    ensures r.Success? <==> id in store.byId
    ensures r.Success? ==> r.value == store.byId[id]
    ensures r.Failure? ==> r.error == ProjectNotFound
  {
    if id in store.byId then Success(store.byId[id]) else Failure(ProjectNotFound)
  }

  /** With a consistent index, the project found carries the id asked for. */
  lemma ExistingProjectHasId(store: Store, id: int)
    requires Indexed(store)
    ensures CheckCharityProjectExists(store, id).Success? ==> CheckCharityProjectExists(store, id).value.id == id
  {
  }

  /**
   * `check_project_before_delete`: 404 for a missing project first; then 400
   * when the project is closed or holds money; otherwise the project itself.
   */
  function CheckProjectBeforeDelete(store: Store, id: int): (r: Result<CharityProject, HttpError>)
    reads store.byId.Values
    ensures id !in store.byId ==> r == Failure(ProjectNotFound)
    ensures id in store.byId ==>
              && (r == Failure(ProjectHasMoney) <==> store.byId[id].fullyInvested || store.byId[id].investedAmount > 0)
              && (r.Success? <==> !store.byId[id].fullyInvested && store.byId[id].investedAmount <= 0)
    ensures r.Success? ==> r.value == store.byId[id]
  {
    match CheckCharityProjectExists(store, id)
    case Failure(e) => Failure(e)
    case Success(project) =>
      if project.fullyInvested || project.investedAmount > 0 then Failure(ProjectHasMoney) else Success(project)
  }

  /**
   * A project that passes the delete guard holds no money: removing its row
   * leaves the invested total of the project table as it was, so no donated
   * amount disappears with it.
   */
  lemma DeletionKeepsInvestedTotal(store: Store, id: int, table: seq<Funding>, j: nat)
    requires id in store.byId && SatisfiesChecks(store.byId[id].View())
    requires j < |table| && table[j] == store.byId[id].View()
    ensures CheckProjectBeforeDelete(store, id).Success? ==>
              && store.byId[id].investedAmount == 0
              && TotalInvested(table[..j] + table[j + 1..]) == TotalInvested(table)
  {
    if CheckProjectBeforeDelete(store, id).Success? {
      assert table == table[..j] + [table[j]] + table[j + 1..];
      TotalInvestedConcat(table[..j] + [table[j]], table[j + 1..]);
      TotalInvestedConcat(table[..j], [table[j]]);
      TotalInvestedConcat(table[..j], table[j + 1..]);
      assert TotalInvested([table[j]]) == TotalInvested([]) + table[j].investedAmount by {
        assert [table[j]][..0] == [];
      }
    }
  }

  /**
   * The decision `check_project_before_edit` takes about a found project:
   * refuse a closed project before looking at the amount, refuse a target
   * below the invested amount, and otherwise accept, closing the project
   * (`Success(true)`) when the new target equals the invested amount.
   */
  function EditVerdict(f: Funding, fullAmount: Option<int>): (r: Result<bool, HttpError>)
    ensures f.fullyInvested ==> r == Failure(ProjectClosed)
    ensures !f.fullyInvested && fullAmount.Some? && fullAmount.value < f.investedAmount ==> r == Failure(TargetBelowInvested)
    ensures r.Success? <==> !f.fullyInvested && (fullAmount.None? || fullAmount.value >= f.investedAmount)
    ensures r.Success? ==> (r.value <==> fullAmount == Some(f.investedAmount))
  {
    if f.fullyInvested then Failure(ProjectClosed)
    else match fullAmount
      case None => Success(false)
      case Some(amount) =>
        if amount < f.investedAmount then Failure(TargetBelowInvested)
        else Success(amount == f.investedAmount)
  }

  /**
   * The funding columns after an accepted edit: the guard's closing of the
   * project, then the update copying the new `full_amount`, if one is given.
   */
  function EditedFunding(f: Funding, fullAmount: Option<int>, now: Time): (r: Funding)
    ensures r.investedAmount == f.investedAmount
    ensures r.fullAmount == if fullAmount.Some? then fullAmount.value else f.fullAmount
    ensures r.fullyInvested <==> f.fullyInvested || fullAmount == Some(f.investedAmount)
    ensures r.closeDate == if fullAmount == Some(f.investedAmount) then Some(now) else f.closeDate
  {
    var guarded := if fullAmount == Some(f.investedAmount) then AssignFullyInvested(f, true, now) else f;
    match fullAmount
    case None => guarded
    case Some(amount) => guarded.(fullAmount := amount)
  }

  /**
   * The edit guard accepts a positive new target for an open consistent
   * project exactly when the edited project is still consistent: it is what
   * keeps `invested_amount <= full_amount` and the flag in step with it.
   */
  lemma EditGuardKeepsConsistent(f: Funding, fullAmount: Option<int>, now: Time)
    requires Consistent(f) && !f.fullyInvested
    requires fullAmount.Some? ==> fullAmount.value > 0
    ensures EditVerdict(f, fullAmount).Success? <==> Consistent(EditedFunding(f, fullAmount, now))
  {
  }

  /**
   * `check_project_before_edit`: 404 for a missing project first, then the
   * verdict on the found project; an accepted target equal to the invested
   * amount closes the project through the `fully_invested` hook.
   */
  method CheckProjectBeforeEdit(store: Store, id: int, fullAmount: Option<int>, now: Time)
    returns (r: Result<CharityProject, HttpError>)
    modifies (if id in store.byId then {store.byId[id]} else {})`fullyInvested
    modifies (if id in store.byId then {store.byId[id]} else {})`closeDate
    ensures id !in store.byId ==> r == Failure(ProjectNotFound)
    ensures id in store.byId ==>
              var project := store.byId[id];
              && match EditVerdict(old(project.View()), fullAmount)
                 case Failure(e) => r == Failure(e) && project.View() == old(project.View())
                 case Success(closes) =>
                   && r == Success(project)
                   && project.View() == if closes then AssignFullyInvested(old(project.View()), true, now)
                                        else old(project.View())
  {
    var found := CheckCharityProjectExists(store, id);
    if found.Failure? {
      return Failure(found.error);
    }
    var project := found.value;
    if project.fullyInvested {
      return Failure(ProjectClosed);
    }
    if fullAmount.Some? {
      if fullAmount.value < project.investedAmount {
        return Failure(TargetBelowInvested);
      } else if fullAmount.value == project.investedAmount {
        project.SetFullyInvested(true, now);
      }
    }
    return Success(project);
  }
}
