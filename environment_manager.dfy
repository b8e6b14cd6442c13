/** The environment manager dialog: a list of named variable sets, one of
    them selected for editing. Adding, deleting, renaming and replacing the
    variables go to the parent, which stores the new list and renders the
    dialog with it; the selection is the dialog's own state. */
module EnvironmentManager {
  import opened Wrappers
  import opened Seqs
  import opened Types

  const NewEnvironmentName: string := "New Environment"

  /** `environments.find(e => e.id === selectedEnvId)`: the first
      environment with the selected id; none when nothing is selected. */
  function FindEnvironment(envs: seq<Environment>, id: Option<string>): (r: Option<Environment>)
    ensures r.Some? ==> r.value in envs && id == Some(r.value.id)
    ensures r.None? ==> forall i :: 0 <= i < |envs| ==> id != Some(envs[i].id)
    ensures r.Some? ==> exists i :: 0 <= i < |envs| && envs[i] == r.value && forall j :: 0 <= j < i ==> id != Some(envs[j].id)
  {
    if envs == [] then None
    else if id == Some(envs[0].id) then Some(envs[0])
    else
      var r := FindEnvironment(envs[1..], id);
      assert forall i :: 1 <= i < |envs| ==> envs[i] == envs[1..][i - 1];
      assert r.Some? ==> exists i :: 0 <= i < |envs| && envs[i] == r.value && forall j :: 0 <= j < i ==> id != Some(envs[j].id) by {
        if r.Some? {
          var k :| 0 <= k < |envs[1..]| && envs[1..][k] == r.value && forall j :: 0 <= j < k ==> id != Some(envs[1..][j].id);
          assert envs[k + 1] == r.value;
          assert forall j :: 0 <= j < k + 1 ==> id != Some(envs[j].id) by {
            forall j | 0 <= j < k + 1 ensures id != Some(envs[j].id) {
              if j > 0 {
                assert envs[j] == envs[1..][j - 1];
              }
            }
          }
        }
      }
      r
  }

  function OtherEnvironment(id: string): Environment -> bool {
    (e: Environment) => e.id != id
  }

  /** The `filter` of `handleDeleteEnvironment`: the environments with id
      `id` are dropped, the others keep their order. */
  function Without(envs: seq<Environment>, id: string): (r: seq<Environment>)
    ensures forall i :: 0 <= i < |r| ==> r[i].id != id
    ensures forall i :: 0 <= i < |envs| && envs[i].id != id ==> envs[i] in r
    ensures forall e :: multiset(r)[e] == if e.id != id then multiset(envs)[e] else 0
    ensures IsSubsequence(r, envs)
  {
    var r := Filter(envs, OtherEnvironment(id));
    FilterCounts(envs, OtherEnvironment(id));
    assert forall i :: 0 <= i < |r| ==> OtherEnvironment(id)(r[i]);
    assert forall i :: 0 <= i < |envs| && envs[i].id != id ==> OtherEnvironment(id)(envs[i]);
    r
  }

  /** The `map` of `handleUpdateName`: the environments with id `id` take
      the new name; everything else stays. */
  function Renamed(envs: seq<Environment>, id: string, name: string): (r: seq<Environment>)
    ensures |r| == |envs|
    ensures forall i :: 0 <= i < |r| ==> r[i].id == envs[i].id && r[i].variables == envs[i].variables
    ensures forall i :: 0 <= i < |r| ==> r[i].name == if envs[i].id == id then name else envs[i].name
  {
    seq(|envs|, i requires 0 <= i < |envs| => if envs[i].id == id then envs[i].(name := name) else envs[i])
  }

  /** The `map` of `handleUpdateVariables`: the environments with id `id`
      take the new variables; everything else stays. */
  function WithVariables(envs: seq<Environment>, id: string, vars: seq<KeyValueItem>): (r: seq<Environment>)
    ensures |r| == |envs|
    ensures forall i :: 0 <= i < |r| ==> r[i].id == envs[i].id && r[i].name == envs[i].name
    ensures forall i :: 0 <= i < |r| ==> r[i].variables == if envs[i].id == id then vars else envs[i].variables
  {
    seq(|envs|, i requires 0 <= i < |envs| => if envs[i].id == id then envs[i].(variables := vars) else envs[i])
  }

  /** After a rename the selected environment is found under the same id
      with the new name and its variables. */
  lemma {:induction false} RenamedFound(envs: seq<Environment>, id: string, name: string)
    requires FindEnvironment(envs, Some(id)).Some?
    ensures FindEnvironment(Renamed(envs, id, name), Some(id)) ==
      Some(FindEnvironment(envs, Some(id)).value.(name := name))
  {
    var r := Renamed(envs, id, name);
    assert r[0].id == envs[0].id;
    if envs[0].id == id {
      assert r[0] == envs[0].(name := name);
    } else {
      RenamedTail(envs, id, name);
      RenamedFound(envs[1..], id, name);
    }
  }

  /** Renaming commutes with dropping the first environment. */
  lemma RenamedTail(envs: seq<Environment>, id: string, name: string)
    requires envs != []
    ensures Renamed(envs, id, name)[1..] == Renamed(envs[1..], id, name)
  {
    var a, b := Renamed(envs, id, name)[1..], Renamed(envs[1..], id, name);
    assert forall i :: 0 <= i < |a| ==> a[i] == b[i];
  }

  /** The dialog's state: whether it is open, the environments it was
      given, the selected id, and the ids drawn so far from `mint`. */
  class EnvironmentPanel {
    var isOpen: bool
    var environments: seq<Environment>
    var selectedEnvId: Option<string>
    var drawn: nat
    const mint: nat -> string

    constructor (isOpen: bool, environments: seq<Environment>, mint: nat -> string)
      ensures this.isOpen == isOpen && this.environments == environments && this.mint == mint
      ensures selectedEnvId == None && drawn == 0
    {
      this.isOpen := isOpen;
      this.environments := environments;
      this.mint := mint;
      selectedEnvId := None;
      drawn := 0;
    }

    /** `selectedEnv`. */
    function SelectedEnv(): Option<Environment>
      reads this
    {
      FindEnvironment(environments, selectedEnvId)
    }

    /** The effect on opening: an open dialog with environments and no
        selection selects the first; otherwise nothing changes. */
    method InitSelection()
      modifies this
      ensures isOpen == old(isOpen) && environments == old(environments) && drawn == old(drawn)
      ensures old(isOpen && |environments| > 0 && !Given(selectedEnvId)) ==> selectedEnvId == Some(environments[0].id)
      ensures !old(isOpen && |environments| > 0 && !Given(selectedEnvId)) ==> selectedEnvId == old(selectedEnvId)
      ensures isOpen && |environments| > 0 ==> SelectedEnv().Some? || Given(selectedEnvId)
    {
      if isOpen && |environments| > 0 && !Given(selectedEnvId) {
        selectedEnvId := Some(environments[0].id);
      }
    }

    /** `handleAddEnvironment`: one environment is appended, named "New
        Environment" with a single empty enabled variable row, and it
        becomes the selection. */
    method AddEnvironment()
      modifies this
      ensures var env := Environment(mint(old(drawn)), NewEnvironmentName, [EmptyRow(mint(old(drawn) + 1))]);
        && environments == old(environments) + [env]
        && selectedEnvId == Some(env.id)
        && ((forall i :: 0 <= i < |old(environments)| ==> old(environments)[i].id != env.id) ==> SelectedEnv() == Some(env))
      ensures drawn == old(drawn) + 2 && isOpen == old(isOpen)
    {
      var env := Environment(mint(drawn), NewEnvironmentName, [EmptyRow(mint(drawn + 1))]);
      drawn := drawn + 2;
      ghost var before := environments;
      environments := environments + [env];
      selectedEnvId := Some(env.id);
      if forall i :: 0 <= i < |before| ==> before[i].id != env.id {
        FoundLast(before, env);
      }
    }

    /** `handleDeleteEnvironment`: the environments with that id go; when
        the selected one goes, the first remaining one (or nothing) is
        selected, otherwise the selection stays. */
    method DeleteEnvironment(id: string)
      modifies this
      ensures environments == Without(old(environments), id)
      ensures old(selectedEnvId) == Some(id) ==>
        selectedEnvId == if environments != [] then Some(environments[0].id) else None
      ensures old(selectedEnvId) != Some(id) ==> selectedEnvId == old(selectedEnvId)
      ensures selectedEnvId.Some? && old(selectedEnvId) == Some(id) ==> SelectedEnv() == Some(environments[0])
      ensures drawn == old(drawn) && isOpen == old(isOpen)
    {
      var newEnvs := Without(environments, id);
      environments := newEnvs;
      if selectedEnvId == Some(id) {
        selectedEnvId := if |newEnvs| > 0 then Some(newEnvs[0].id) else None;
      }
    }

    /** `handleUpdateName`: the selected environment is renamed; without a
        selection nothing changes. */
    method UpdateName(name: string)
      modifies this
      ensures old(SelectedEnv()).None? ==> environments == old(environments)
      ensures old(SelectedEnv()).Some? ==> environments == Renamed(old(environments), old(SelectedEnv()).value.id, name)
      ensures old(SelectedEnv()).Some? ==> SelectedEnv() == Some(old(SelectedEnv()).value.(name := name))
      ensures selectedEnvId == old(selectedEnvId) && drawn == old(drawn) && isOpen == old(isOpen)
    {
      var selected := SelectedEnv();
      if selected.None? {
        return;
      }
      RenamedFound(environments, selected.value.id, name);
      environments := Renamed(environments, selected.value.id, name);
    }

    /** `handleUpdateVariables`: the selected environment takes the new
        variables; without a selection nothing changes. */
    method UpdateVariables(vars: seq<KeyValueItem>)
      modifies this
      ensures old(SelectedEnv()).None? ==> environments == old(environments)
      ensures old(SelectedEnv()).Some? ==> environments == WithVariables(old(environments), old(SelectedEnv()).value.id, vars)
      ensures selectedEnvId == old(selectedEnvId) && drawn == old(drawn) && isOpen == old(isOpen)
    {
      var selected := SelectedEnv();
      if selected.None? {
        return;
      }
      environments := WithVariables(environments, selected.value.id, vars);
    }
  }

  /** An environment appended under an id no other one has is found. */
  lemma {:induction false} FoundLast(envs: seq<Environment>, env: Environment)
    requires forall i :: 0 <= i < |envs| ==> envs[i].id != env.id
    ensures FindEnvironment(envs + [env], Some(env.id)) == Some(env)
  {
    if envs != [] {
      assert (envs + [env])[1..] == envs[1..] + [env];
      FoundLast(envs[1..], env);
    }
  }
}
