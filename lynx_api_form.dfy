/**
 * The Lynx & API access form: six groups of contact rows (add, update and
 * remove, for the Lynx user interface and for the API), each row carrying
 * a record of boolean rights in which "view only" excludes every other
 * right.
 */
module LynxApiForm {

  import opened Text

  /** One entry of a rights configuration: the key in the rights record and its column heading. */
  datatype Right = Right(key: string, heading: string)

  const ViewOnly: string := "viewOnly"

  /** `LYNX_RIGHTS`: the columns of the Lynx groups. */
  const LynxRights: seq<Right> := [
    Right("viewOnly", "View only"),
    Right("transfer", "Transfer of crypto assets and FIAT"),
    Right("trading", "Trading rights"),
    Right("staking", "Staking rights")
  ]

  /** `API_RIGHTS`: the columns of the API groups. */
  const ApiRights: seq<Right> := [
    Right("viewOnly", "View only via REST API"),
    Right("whitelist", "Requesting whitelisting of wallet address via REST API"),
    Right("transfer", "Instruct transfer of crypto assets and FIAT via REST API"),
    Right("tradingRest", "Trading rights via REST API"),
    Right("stakingRest", "Staking rights via REST API"),
    Right("tradingFix", "Trading rights via FIX API")
  ]

  const LynxGroups: set<string> := {"addLynxPersons", "updateLynxPersons", "removeLynxPersons"}
  const ApiGroups: set<string> := {"addAPIPersons", "updateAPIPersons", "removeAPIPersons"}

  /** The six array fields of the form. */
  function GroupNames(): set<string> {
    LynxGroups + ApiGroups
  }

  /** The rights configuration a group's table is rendered with. */
  function ConfigFor(groupName: string): seq<Right> {
    if groupName in LynxGroups then LynxRights else ApiRights
  }

  /** The keys a configuration names. */
  function KeySet(config: seq<Right>): set<string> {
    set r | r in config :: r.key
  }

  /** Both configurations have a "view only" column. */
  lemma ConfigsHaveViewOnly()
    ensures ViewOnly in KeySet(LynxRights) && ViewOnly in KeySet(ApiRights)
  {
    assert LynxRights[0] in LynxRights && ApiRights[0] in ApiRights;
  }

  type Rights = map<string, bool>

  /** A row of a group: contact fields and its rights record. */
  datatype Row = Row(id: string, name: string, firstname: string, email: string, phone: string, rights: Rights)

  /** "View only" set means no other right is set. */
  predicate Exclusive(rights: Rights) {
    ViewOnly in rights && rights[ViewOnly] ==> forall k :: k in rights && k != ViewOnly ==> !rights[k]
  }

  /** A row as the form keeps it: exactly the configured rights, with "view only" exclusive. */
  predicate RowValid(row: Row, config: seq<Right>) {
    row.rights.Keys == KeySet(config) && Exclusive(row.rights)
  }

  /** The rights record `createNewItem` builds with its `reduce`: every configured key, false. */
  function AllFalse(config: seq<Right>): (r: Rights)
    ensures r.Keys == KeySet(config)
    ensures forall k :: k in r ==> !r[k]
  {
    if config == [] then map[]
    else
      var rest := AllFalse(config[..|config| - 1]);
      assert config == config[..|config| - 1] + [config[|config| - 1]];
      rest[config[|config| - 1].key := false]
  }

  /** `createNewItem`: a blank row whose id is the group name and the clock reading `now`. */
  function NewRow(groupName: string, now: nat): (r: Row)
    ensures r.id == groupName + "-" + NatToString(now)
    ensures r.name == "" && r.firstname == "" && r.email == "" && r.phone == ""
    ensures r.rights.Keys == KeySet(ConfigFor(groupName))
    ensures forall k :: k in r.rights ==> !r.rights[k]
  {
    Row(groupName + "-" + NatToString(now), "", "", "", "", AllFalse(ConfigFor(groupName)))
  }

  /** A new row is a valid row of its group. */
  lemma NewRowValid(groupName: string, now: nat)
    ensures RowValid(NewRow(groupName, now), ConfigFor(groupName))
  {
  }

  /**
   * The rights after the `forEach` over the configuration has written
   * `false` to every key other than "view only".
   */
  function ClearOthers(rights: Rights, config: seq<Right>): (r: Rights)
    ensures r.Keys == rights.Keys + (KeySet(config) - {ViewOnly})
    ensures forall k :: k in r ==> r[k] == (if k in KeySet(config) - {ViewOnly} then false else rights[k])
  {
    if config == [] then rights
    else
      var last := config[|config| - 1];
      var r := ClearOthers(rights, config[..|config| - 1]);
      assert config == config[..|config| - 1] + [last];
      assert KeySet(config) == KeySet(config[..|config| - 1]) + {last.key};
      if last.key != ViewOnly then r[last.key := false] else r
  }

  /**
   * `handleCheckboxChange` on one rights record: checking "view only" clears
   * every other configured right, checking another right clears "view only",
   * and unchecking touches only the unchecked key.
   */
  function Toggled(rights: Rights, config: seq<Right>, key: string, checked: bool): Rights {
    if key == ViewOnly then
      if checked then ClearOthers(rights, config)[ViewOnly := true] else rights[ViewOnly := false]
    else if checked then rights[ViewOnly := false][key := true]
    else rights[key := false]
  }

  /**
   * What a checkbox change does to a record holding exactly the configured
   * keys: the clicked key ends up as `checked`; checking "view only" makes
   * every other key false; checking another key makes "view only" false and
   * leaves the rest; unchecking changes nothing but the clicked key.
   */
  lemma ToggledEffect(rights: Rights, config: seq<Right>, key: string, checked: bool)
    requires rights.Keys == KeySet(config) && ViewOnly in KeySet(config) && key in KeySet(config)
    ensures var r := Toggled(rights, config, key, checked);
      && r.Keys == rights.Keys
      && r[key] == checked
      && (key == ViewOnly && checked ==> forall k :: k in r && k != ViewOnly ==> !r[k])
      && (key != ViewOnly && checked ==>
            !r[ViewOnly] && forall k :: k in r && k != key && k != ViewOnly ==> r[k] == rights[k])
      && (!checked ==> forall k :: k in r && k != key ==> r[k] == rights[k])
  {
  }

  /** Every checkbox change keeps "view only" exclusive, and a checking change establishes it. */
  lemma ToggledExclusive(rights: Rights, config: seq<Right>, key: string, checked: bool)
    requires rights.Keys == KeySet(config) && ViewOnly in KeySet(config) && key in KeySet(config)
    requires Exclusive(rights) || checked
    ensures Exclusive(Toggled(rights, config, key, checked))
  {
    var r := Toggled(rights, config, key, checked);
    if key != ViewOnly && !checked && rights[ViewOnly] {
      forall k | k in r && k != ViewOnly ensures !r[k] {
        if k != key {
          assert r[k] == rights[k];
        }
      }
    }
  }

  /** Six groups, each row with exactly its group's rights and "view only" exclusive. */
  predicate GroupsValid(groups: map<string, seq<Row>>) {
    && groups.Keys == GroupNames()
    && forall g, i :: g in groups && 0 <= i < |groups[g]| ==> RowValid(groups[g][i], ConfigFor(g))
  }

  /** A checkbox change turns a valid row into a valid row. */
  lemma ToggledRowValid(row: Row, groupName: string, key: string, checked: bool)
    requires RowValid(row, ConfigFor(groupName)) && key in KeySet(ConfigFor(groupName))
    ensures RowValid(row.(rights := Toggled(row.rights, ConfigFor(groupName), key, checked)), ConfigFor(groupName))
  {
    var config := ConfigFor(groupName);
    ConfigsHaveViewOnly();
    ToggledEffect(row.rights, config, key, checked);
    ToggledExclusive(row.rights, config, key, checked);
  }

  /** Putting a valid row in place of another keeps the groups valid. */
  lemma ReplaceRowValid(groups: map<string, seq<Row>>, groupName: string, index: nat, row: Row)
    requires GroupsValid(groups) && groupName in groups && index < |groups[groupName]|
    requires RowValid(row, ConfigFor(groupName))
    ensures GroupsValid(groups[groupName := groups[groupName][index := row]])
  {
  }

  /** The groups with the rights of row `index` of `groupName` replaced by `rights`. */
  function WithRights(groups: map<string, seq<Row>>, groupName: string, index: nat, rights: Rights): (r: map<string, seq<Row>>)
    requires groupName in groups && index < |groups[groupName]|
    ensures r.Keys == groups.Keys && |r[groupName]| == |groups[groupName]|
    ensures r[groupName][index] == groups[groupName][index].(rights := rights)
    ensures forall j :: 0 <= j < |r[groupName]| && j != index ==> r[groupName][j] == groups[groupName][j]
    ensures forall g :: g in groups && g != groupName ==> r[g] == groups[g]
  {
    groups[groupName := groups[groupName][index := groups[groupName][index].(rights := rights)]]
  }

  /** Writing a row's rights twice keeps only the second write. */
  lemma WithRightsTwice(groups: map<string, seq<Row>>, groupName: string, index: nat, r1: Rights, r2: Rights)
    requires groupName in groups && index < |groups[groupName]|
    ensures WithRights(WithRights(groups, groupName, index, r1), groupName, index, r2)
         == WithRights(groups, groupName, index, r2)
  {
    var rows := groups[groupName];
    var once := rows[index := rows[index].(rights := r1)];
    assert once[index].(rights := r2) == rows[index].(rights := r2);
    assert once[index := once[index].(rights := r2)] == rows[index := rows[index].(rights := r2)];
  }

  /** Writing back a row's own rights changes nothing. */
  lemma WithRightsSame(groups: map<string, seq<Row>>, groupName: string, index: nat)
    requires groupName in groups && index < |groups[groupName]|
    ensures WithRights(groups, groupName, index, groups[groupName][index].rights) == groups
  {
    assert groups[groupName][index := groups[groupName][index]] == groups[groupName];
  }

  /** The form's array fields: group name to rows. */
  class LynxApiFormState {
    var groups: map<string, seq<Row>>

    /** Six groups, each row with exactly its group's rights and "view only" exclusive. */
    predicate Valid()
      reads this
    {
      GroupsValid(groups)
    }

    /** `defaultValues`: all six groups empty. */
    constructor ()
      ensures Valid()
      ensures forall g :: g in GroupNames() ==> g in groups && groups[g] == []
    {
      groups := map g | g in GroupNames() :: [];
    }

    /** `form.setFieldValue(`${group}[${index}].rights.${key}`, value)`. */
    method SetRight(groupName: string, index: nat, key: string, value: bool)
      requires groupName in groups && index < |groups[groupName]|
      modifies this
      ensures groups == WithRights(old(groups), groupName, index, old(groups)[groupName][index].rights[key := value])
    {
      var rows := groups[groupName];
      var row := rows[index];
      groups := groups[groupName := rows[index := row.(rights := row.rights[key := value])]];
    }

    /** The `forEach` of a "view only" check: `false` written to every other configured right of the row. */
    method ClearOtherRights(groupName: string, index: nat)
      requires groupName in groups && index < |groups[groupName]|
      modifies this
      ensures groups == WithRights(old(groups), groupName, index,
                                   ClearOthers(old(groups)[groupName][index].rights, ConfigFor(groupName)))
    {
      var config := ConfigFor(groupName);
      ghost var rights := groups[groupName][index].rights;
      WithRightsSame(groups, groupName, index);
      var i := 0;
      assert config[..0] == [];
      while i < |config|
        invariant 0 <= i <= |config|
        invariant groups == WithRights(old(groups), groupName, index, ClearOthers(rights, config[..i]))
      {
        ghost var before := ClearOthers(rights, config[..i]);
        assert config[..i + 1][..i] == config[..i];
        if config[i].key != ViewOnly {
          SetRight(groupName, index, config[i].key, false);
          WithRightsTwice(old(groups), groupName, index, before, before[config[i].key := false]);
        }
        i := i + 1;
      }
      assert config[..i] == config;
    }

    /**
     * `RightsTable.handleCheckboxChange`: the checkbox `rightKey` of row
     * `index` of group `groupName` was set to `checked`. Only that row's
     * rights change, as `Toggled` says, and the form stays valid.
     */
    method HandleCheckboxChange(groupName: string, index: nat, rightKey: string, checked: bool)
      requires Valid()
      requires groupName in groups && index < |groups[groupName]|
      requires rightKey in KeySet(ConfigFor(groupName))
      modifies this
      ensures Valid()
      ensures groups == WithRights(old(groups), groupName, index,
                                   Toggled(old(groups)[groupName][index].rights, ConfigFor(groupName), rightKey, checked))
    {
      ghost var row := groups[groupName][index];
      ghost var g0 := groups;
      if rightKey == ViewOnly {
        if checked {
          ClearOtherRights(groupName, index);
          ghost var cleared := ClearOthers(row.rights, ConfigFor(groupName));
          SetRight(groupName, index, ViewOnly, true);
          WithRightsTwice(g0, groupName, index, cleared, cleared[ViewOnly := true]);
        } else {
          SetRight(groupName, index, ViewOnly, false);
        }
      } else {
        if checked {
          SetRight(groupName, index, ViewOnly, false);
          SetRight(groupName, index, rightKey, true);
          WithRightsTwice(g0, groupName, index, row.rights[ViewOnly := false], row.rights[ViewOnly := false][rightKey := true]);
        } else {
          SetRight(groupName, index, rightKey, false);
        }
      }
      ToggledRowValid(row, groupName, rightKey, checked);
      ReplaceRowValid(g0, groupName, index, row.(rights := Toggled(row.rights, ConfigFor(groupName), rightKey, checked)));
    }

    /** `field.pushValue(createNewItem())`: a blank row at the end of the group. */
    method PushRow(groupName: string, now: nat)
      requires Valid() && groupName in groups
      modifies this
      ensures Valid()
      ensures groups == old(groups)[groupName := old(groups)[groupName] + [NewRow(groupName, now)]]
    {
      NewRowValid(groupName, now);
      groups := groups[groupName := groups[groupName] + [NewRow(groupName, now)]];
    }

    /** `field.removeValue(index)`: the row at `index` leaves its group, the rest keep their order. */
    method RemoveRow(groupName: string, index: nat)
      requires Valid() && groupName in groups && index < |groups[groupName]|
      modifies this
      ensures Valid()
      ensures groups == old(groups)[groupName := old(groups)[groupName][..index] + old(groups)[groupName][index + 1..]]
    {
      var rows := groups[groupName];
      groups := groups[groupName := rows[..index] + rows[index + 1..]];
    }
  }
}
