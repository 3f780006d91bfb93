/** Migration 0004: Orchestrator estates become environments of their own
    (backend/alembic/versions/20260916_0004_environment_kind.py). */
module Migration {
  import opened Common

  datatype Credentials = Credentials(clientId: Option<string>, secret: Option<string>, token: Option<string>)

  const NoCredentials := Credentials(None, None, None)

  /** details stands for the columns both rows share: tags, groupings, labels, infrastructure and the like. */
  datatype Row = Row(name: string, slug: string, description: string, kind: string, platformUrl: Option<string>,
                     orchestratorUrl: Option<string>, orchestrator: Credentials, aap: Credentials, details: string)

  /** A snapshot or resource: its environment, its service, and what else identifies it. */
  datatype Child = Child(owner: string, service: string, key: string)

  datatype Tables = Tables(environments: map<string, Row>, snapshots: map<string, Child>, resources: map<string, Child>)

  // ----- One row -----

  predicate Space(c: char) { c == ' ' }

  /** The WHERE clause; btrim removes spaces only. */
  predicate Selected(row: Row)
  {
    row.orchestratorUrl.Some? && Trim(row.orchestratorUrl.value, Space) != "" && row.kind != "orchestrator"
  }

  predicate Taken(environments: map<string, Row>, name: string, slug: string)
  {
    exists id :: id in environments && (environments[id].name == name || environments[id].slug == slug)
  }

  function BaseName(row: Row): string { row.name + " Automation Orchestrator" }
  function BaseSlug(row: Row): string { row.slug + "-orchestrator" }

  /** new_id[:8] */
  function Suffix(id: string): string { if |id| < 8 then id else id[..8] }

  function NewName(environments: map<string, Row>, row: Row, newId: string): string
  {
    if Taken(environments, BaseName(row), BaseSlug(row)) then BaseName(row) + " " + Suffix(newId) else BaseName(row)
  }

  function NewSlug(environments: map<string, Row>, row: Row, newId: string): string
  {
    if Taken(environments, BaseName(row), BaseSlug(row)) then BaseSlug(row) + "-" + Suffix(newId) else BaseSlug(row)
  }

  /** The inserted row. */
  function SplitOff(row: Row, name: string, slug: string): Row
  {
    Row(name, slug,
        if Trim(row.description, PythonSpace) != "" then Trim(row.description, PythonSpace)
        else "Automation Orchestrator estate split from the related AAP environment.",
        "orchestrator", row.orchestratorUrl, row.orchestratorUrl, row.orchestrator, NoCredentials, row.details)
  }

  /** The old row afterwards. */
  function Cleared(row: Row): Row
  {
    row.(orchestratorUrl := None, orchestrator := NoCredentials)
  }

  function Moved(child: Child, oldId: string, newId: string): Child
  {
    if child.owner == oldId && child.service == "orchestrator" then child.(owner := newId) else child
  }

  function MoveChildren(children: map<string, Child>, oldId: string, newId: string): map<string, Child>
  {
    map k | k in children :: Moved(children[k], oldId, newId)
  }

  /** The environments after one insert and one clearing update. */
  function NextRows(environments: map<string, Row>, oldId: string, row: Row, newId: string): map<string, Row>
    requires oldId in environments
  {
    environments[newId := SplitOff(row, NewName(environments, row, newId), NewSlug(environments, row, newId))]
                [oldId := Cleared(environments[oldId])]
  }

  /** The columns are VARCHAR(120) and VARCHAR(140). The database cuts off excess spaces silently, but
      a generated name or slug ends in another character. */
  const NameLimit: nat := 120
  const SlugLimit: nat := 140

  predicate FitsColumns(name: string, slug: string)
  {
    |name| <= NameLimit && |slug| <= SlugLimit
  }

  /** The insert is refused: it breaks a unique key or exceeds a column. */
  predicate Refused(environments: map<string, Row>, newId: string, name: string, slug: string)
  {
    newId in environments || Taken(environments, name, slug) || !FitsColumns(name, slug)
  }

  /** One turn of the loop; None when the insert is refused, which aborts the migration. */
  function SplitRow(t: Tables, oldId: string, row: Row, newId: string): Option<Tables>
    requires oldId in t.environments
  {
    if Refused(t.environments, newId, NewName(t.environments, row, newId), NewSlug(t.environments, row, newId))
    then None
    else Some(Tables(NextRows(t.environments, oldId, row, newId),
                     MoveChildren(t.snapshots, oldId, newId), MoveChildren(t.resources, oldId, newId)))
  }

  // ----- The loop -----

  datatype Source = Source(id: string, row: Row)

  function SplitAll(t: Tables, rows: seq<Source>, newIds: seq<string>): Option<Tables>
    requires |rows| == |newIds| && forall s :: s in rows ==> s.id in t.environments
    decreases |rows|
  {
    if rows == [] then Some(t)
    else
      match SplitRow(t, rows[0].id, rows[0].row, newIds[0])
      case None => None
      case Some(next) => SplitAll(next, rows[1..], newIds[1..])
  }

  lemma SplitAllStep(t: Tables, rows: seq<Source>, newIds: seq<string>, i: nat)
    requires |rows| == |newIds| && i < |rows| && forall s :: s in rows[i..] ==> s.id in t.environments
    ensures rows[i].id in t.environments
    ensures match SplitRow(t, rows[i].id, rows[i].row, newIds[i])
      case None => SplitAll(t, rows[i..], newIds[i..]) == None
      case Some(next) =>
        (forall s :: s in rows[i + 1..] ==> s.id in next.environments) &&
        SplitAll(t, rows[i..], newIds[i..]) == SplitAll(next, rows[i + 1..], newIds[i + 1..])
  {
    assert rows[i..][0] == rows[i] && rows[i..][1..] == rows[i + 1..];
    assert newIds[i..][0] == newIds[i] && newIds[i..][1..] == newIds[i + 1..];
  }

  ghost predicate DistinctSources(rows: seq<Source>)
  {
    forall i, j :: 0 <= i < j < |rows| ==> rows[i].id != rows[j].id
  }

  /** The result of the query: every selected row once, in any order. */
  ghost predicate QueryResult(t: Tables, rows: seq<Source>)
  {
    (forall s :: s in rows ==> s.id in t.environments && t.environments[s.id] == s.row && Selected(s.row)) &&
    (forall id :: id in t.environments && Selected(t.environments[id]) ==> Source(id, t.environments[id]) in rows) &&
    DistinctSources(rows)
  }

  class Connection {
    var tables: Tables

    constructor (t: Tables)
      ensures tables == t
    {
      tables := t;
    }

    /** The statements for one row; a refused insert changes nothing. */
    method SplitOne(oldId: string, row: Row, newId: string) returns (ok: bool)
      requires oldId in tables.environments
      modifies this
      ensures match SplitRow(old(tables), oldId, row, newId)
        case None => !ok && tables == old(tables)
        case Some(next) => ok && tables == next
    {
      var name, slug := row.name + " Automation Orchestrator", row.slug + "-orchestrator";
      if Taken(tables.environments, name, slug) {
        name, slug := name + " " + Suffix(newId), slug + "-" + Suffix(newId);
      }
      if Refused(tables.environments, newId, name, slug) {
        return false;
      }
      tables := tables.(environments := tables.environments[newId := SplitOff(row, name, slug)]);
      tables := tables.(snapshots := MoveChildren(tables.snapshots, oldId, newId));
      tables := tables.(resources := MoveChildren(tables.resources, oldId, newId));
      tables := tables.(environments := tables.environments[oldId := Cleared(tables.environments[oldId])]);
      return true;
    }

    /** The loop. A failed insert rolls the whole migration back. */
    method Upgrade(rows: seq<Source>, newIds: seq<string>) returns (ok: bool)
      requires |rows| == |newIds| && QueryResult(tables, rows)
      modifies this
      ensures var outcome := SplitAll(old(tables), rows, newIds);
        ok == outcome.Some? && tables == if ok then outcome.value else old(tables)
    {
      var start := tables;
      assert rows[0..] == rows && newIds[0..] == newIds;
      for i := 0 to |rows|
        invariant forall s :: s in rows[i..] ==> s.id in tables.environments
        invariant SplitAll(tables, rows[i..], newIds[i..]) == SplitAll(start, rows, newIds)
      {
        SplitAllStep(tables, rows, newIds, i);
        var done := SplitOne(rows[i].id, rows[i].row, newIds[i]);
        if !done {
          tables := start;
          return false;
        }
      }
      return true;
    }
  }

  // ----- What a table set guarantees -----

  ghost predicate UniqueNames(environments: map<string, Row>)
  {
    forall a, b :: a in environments && b in environments && a != b ==>
      environments[a].name != environments[b].name && environments[a].slug != environments[b].slug
  }

  /** Foreign keys, and one child for each owner, service and key. */
  ghost predicate SoundChildren(environments: map<string, Row>, children: map<string, Child>)
  {
    (forall k :: k in children ==> children[k].owner in environments) &&
    forall j, k :: j in children && k in children && children[j] == children[k] ==> j == k
  }

  ghost predicate Sound(t: Tables)
  {
    UniqueNames(t.environments) && SoundChildren(t.environments, t.snapshots) &&
    SoundChildren(t.environments, t.resources)
  }

  lemma SplitKeepsSound(t: Tables, oldId: string, row: Row, newId: string)
    requires Sound(t) && oldId in t.environments && SplitRow(t, oldId, row, newId).Some?
    ensures Sound(SplitRow(t, oldId, row, newId).value)
  {
    var next := NextRows(t.environments, oldId, row, newId);
    NamesStayUnique(t.environments, oldId, row, newId);
    MoveKeepsSound(t.environments, next, t.snapshots, oldId, newId);
    MoveKeepsSound(t.environments, next, t.resources, oldId, newId);
  }

  lemma NamesStayUnique(environments: map<string, Row>, oldId: string, row: Row, newId: string)
    requires UniqueNames(environments) && oldId in environments
    requires !Refused(environments, newId, NewName(environments, row, newId), NewSlug(environments, row, newId))
    ensures UniqueNames(NextRows(environments, oldId, row, newId))
  {
  }

  lemma MoveKeepsSound(before: map<string, Row>, after: map<string, Row>, children: map<string, Child>, oldId: string,
                       newId: string)
    requires SoundChildren(before, children) && newId !in before && after.Keys == before.Keys + {newId}
    ensures SoundChildren(after, MoveChildren(children, oldId, newId))
  {
  }

  // ----- What the loop does to every row -----

  /** Where a child belongs after the loop. */
  function OwnerAfter(child: Child, rows: seq<Source>, newIds: seq<string>): string
    requires |rows| == |newIds|
  {
    if rows == [] then child.owner
    else if child.service == "orchestrator" && child.owner == rows[0].id then newIds[0]
    else OwnerAfter(child, rows[1..], newIds[1..])
  }

  predicate Splits(rows: seq<Source>, id: string)
  {
    exists k :: 0 <= k < |rows| && rows[k].id == id
  }

  /** The row split off from a source, field by field: the URL twice, the Orchestrator credentials and
      no others, the shared details, a description, and a generic name and slug or these with a suffix. */
  predicate IsSplitOff(row: Row, source: Row, newId: string)
  {
    row.orchestratorUrl == source.orchestratorUrl && row.platformUrl == source.orchestratorUrl &&
    row.orchestrator == source.orchestrator && row.aap == Credentials(None, None, None) &&
    row.kind == "orchestrator" && row.details == source.details &&
    (if forall k :: 0 <= k < |source.description| ==> PythonSpace(source.description[k])
     then row.description == "Automation Orchestrator estate split from the related AAP environment."
     else row.description == Trim(source.description, PythonSpace)) &&
    ((row.name == source.name + " Automation Orchestrator" && row.slug == source.slug + "-orchestrator") ||
     (row.name == source.name + " Automation Orchestrator " + Suffix(newId) &&
      row.slug == source.slug + "-orchestrator-" + Suffix(newId)))
  }

  /** The old row of a split, field by field: URL and Orchestrator credentials are gone, the rest stays. */
  predicate IsCleared(row: Row, before: Row)
  {
    row.orchestratorUrl == None && row.orchestrator == Credentials(None, None, None) &&
    row.name == before.name && row.slug == before.slug && row.description == before.description &&
    row.kind == before.kind && row.platformUrl == before.platformUrl && row.aap == before.aap &&
    row.details == before.details
  }

  ghost predicate ChildrenMoved(before: map<string, Child>, after: map<string, Child>, rows: seq<Source>,
                                newIds: seq<string>)
    requires |rows| == |newIds|
  {
    after.Keys == before.Keys &&
    forall k :: k in before ==> after[k] == before[k].(owner := OwnerAfter(before[k], rows, newIds))
  }

  /** Old rows are cleared if split and unchanged otherwise. */
  ghost predicate OldRowsKept(before: map<string, Row>, after: map<string, Row>, rows: seq<Source>)
  {
    forall id :: id in before ==>
      id in after && if Splits(rows, id) then IsCleared(after[id], before[id]) else after[id] == before[id]
  }

  ghost predicate CarriesOver(before: map<string, Row>, after: map<string, Row>, source: Row, newId: string)
  {
    newId !in before && newId in after && IsSplitOff(after[newId], source, newId)
  }

  /** Each source has its own new row, carrying its URL and credentials. */
  ghost predicate NewRowsCarry(before: map<string, Row>, after: map<string, Row>, rows: seq<Source>,
                               newIds: seq<string>)
    requires |rows| == |newIds|
  {
    forall k :: 0 <= k < |rows| ==> CarriesOver(before, after, rows[k].row, newIds[k])
  }

  ghost predicate NoOtherRow(before: map<string, Row>, after: map<string, Row>, newIds: seq<string>)
  {
    forall id :: id in after <==> id in before || id in newIds
  }

  ghost predicate DistinctIds(ids: seq<string>)
  {
    forall i, j :: 0 <= i < j < |ids| ==> ids[i] != ids[j]
  }

  /** The old rows, one new row for each source, and no other row. */
  ghost predicate EnvironmentsSplit(before: map<string, Row>, after: map<string, Row>, rows: seq<Source>,
                                    newIds: seq<string>)
    requires |rows| == |newIds|
  {
    NoOtherRow(before, after, newIds) &&
    OldRowsKept(before, after, rows) &&
    NewRowsCarry(before, after, rows, newIds) &&
    DistinctIds(newIds)
  }

  /** The effect of the loop on the three tables. */
  ghost predicate Conserved(t: Tables, after: Tables, rows: seq<Source>, newIds: seq<string>)
    requires |rows| == |newIds|
  {
    EnvironmentsSplit(t.environments, after.environments, rows, newIds) &&
    ChildrenMoved(t.snapshots, after.snapshots, rows, newIds) &&
    ChildrenMoved(t.resources, after.resources, rows, newIds)
  }

  lemma ConservedThen(t: Tables, next: Tables, after: Tables, rows: seq<Source>, newIds: seq<string>)
    requires |rows| == |newIds| && rows != []
    requires (forall s :: s in rows ==> s.id in t.environments) && DistinctSources(rows)
    requires SplitRow(t, rows[0].id, rows[0].row, newIds[0]) == Some(next)
    requires Conserved(next, after, rows[1..], newIds[1..])
    ensures Conserved(t, after, rows, newIds)
  {
    MovedThen(t.environments, t.snapshots, after.snapshots, rows, newIds);
    MovedThen(t.environments, t.resources, after.resources, rows, newIds);
    SplitThen(t.environments, next.environments, after.environments, rows, newIds);
  }

  lemma RestDistinct(rows: seq<Source>)
    requires rows != [] && DistinctSources(rows)
    ensures DistinctSources(rows[1..]) && forall s :: s in rows[1..] ==> s in rows
  {
    assert forall k :: 0 <= k < |rows[1..]| ==> rows[1..][k] == rows[k + 1];
  }

  lemma {:induction false} LoopConserves(t: Tables, rows: seq<Source>, newIds: seq<string>)
    requires |rows| == |newIds| && Sound(t)
    requires (forall s :: s in rows ==> s.id in t.environments) && DistinctSources(rows)
    requires SplitAll(t, rows, newIds).Some?
    ensures Sound(SplitAll(t, rows, newIds).value) && Conserved(t, SplitAll(t, rows, newIds).value, rows, newIds)
    decreases |rows|
  {
    if rows != [] {
      var next := SplitRow(t, rows[0].id, rows[0].row, newIds[0]).value;
      SplitKeepsSound(t, rows[0].id, rows[0].row, newIds[0]);
      RestDistinct(rows);
      LoopConserves(next, rows[1..], newIds[1..]);
      ConservedThen(t, next, SplitAll(t, rows, newIds).value, rows, newIds);
    }
  }

  lemma MovedThen(environments: map<string, Row>, before: map<string, Child>, after: map<string, Child>,
                  rows: seq<Source>, newIds: seq<string>)
    requires |rows| == |newIds| && rows != [] && newIds[0] !in environments
    requires forall s :: s in rows ==> s.id in environments
    requires ChildrenMoved(MoveChildren(before, rows[0].id, newIds[0]), after, rows[1..], newIds[1..])
    ensures ChildrenMoved(before, after, rows, newIds)
  {
    forall k | k in before ensures after[k] == before[k].(owner := OwnerAfter(before[k], rows, newIds)) {
      if before[k].owner == rows[0].id && before[k].service == "orchestrator" {
        StaysMoved(before[k].(owner := newIds[0]), rows[1..], newIds[1..]);
      }
    }
  }

  lemma {:induction false} StaysMoved(child: Child, rows: seq<Source>, newIds: seq<string>)
    requires |rows| == |newIds| && forall s :: s in rows ==> s.id != child.owner
    ensures OwnerAfter(child, rows, newIds) == child.owner
  {
    if rows != [] {
      StaysMoved(child, rows[1..], newIds[1..]);
    }
  }

  lemma SplitThen(before: map<string, Row>, next: map<string, Row>, after: map<string, Row>, rows: seq<Source>,
                  newIds: seq<string>)
    requires |rows| == |newIds| && rows != [] && rows[0].id in before && newIds[0] !in before
    requires (forall s :: s in rows ==> s.id in before) && DistinctSources(rows)
    requires next == NextRows(before, rows[0].id, rows[0].row, newIds[0])
    requires EnvironmentsSplit(next, after, rows[1..], newIds[1..])
    ensures EnvironmentsSplit(before, after, rows, newIds)
  {
    NoOtherThen(before, next, after, newIds, rows[0].id);
    OldRowsThen(before, next, after, rows, newIds);
    NewRowsThen(before, next, after, rows, newIds);
    forall k | 0 <= k < |newIds[1..]| ensures newIds[1..][k] != newIds[0] {
      assert CarriesOver(next, after, rows[1..][k].row, newIds[1..][k]) && newIds[0] in next;
    }
    DistinctThen(newIds);
  }

  lemma NoOtherThen(before: map<string, Row>, next: map<string, Row>, after: map<string, Row>, newIds: seq<string>,
                    oldId: string)
    requires newIds != [] && oldId in before && next.Keys == before.Keys + {newIds[0], oldId}
    requires NoOtherRow(next, after, newIds[1..])
    ensures NoOtherRow(before, after, newIds)
  {
  }

  lemma DistinctThen(ids: seq<string>)
    requires ids != [] && DistinctIds(ids[1..])
    requires forall k :: 0 <= k < |ids[1..]| ==> ids[1..][k] != ids[0]
    ensures DistinctIds(ids)
  {
  }

  lemma SplitsAgain(rows: seq<Source>, id: string)
    requires rows != []
    ensures Splits(rows, id) <==> id == rows[0].id || Splits(rows[1..], id)
  {
  }

  lemma NotSplitAgain(rows: seq<Source>)
    requires rows != [] && DistinctSources(rows)
    ensures !Splits(rows[1..], rows[0].id)
  {
  }

  lemma SplitOffFields(environments: map<string, Row>, source: Row, newId: string)
    ensures IsSplitOff(SplitOff(source, NewName(environments, source, newId), NewSlug(environments, source, newId)),
                       source, newId)
  {
    assert BaseName(source) + " " + Suffix(newId) == source.name + " Automation Orchestrator " + Suffix(newId) by {
      assert source.name + " Automation Orchestrator " == BaseName(source) + " ";
    }
    assert BaseSlug(source) + "-" + Suffix(newId) == source.slug + "-orchestrator-" + Suffix(newId) by {
      assert source.slug + "-orchestrator-" == BaseSlug(source) + "-";
    }
  }

  lemma OldRowsThen(before: map<string, Row>, next: map<string, Row>, after: map<string, Row>, rows: seq<Source>,
                    newIds: seq<string>)
    requires |rows| == |newIds| && rows != [] && rows[0].id in before && newIds[0] !in before && DistinctSources(rows)
    requires next == NextRows(before, rows[0].id, rows[0].row, newIds[0])
    requires OldRowsKept(next, after, rows[1..])
    ensures OldRowsKept(before, after, rows)
  {
    forall id | id in before
      ensures id in after && if Splits(rows, id) then IsCleared(after[id], before[id]) else after[id] == before[id]
    {
      SplitsAgain(rows, id);
      NotSplitAgain(rows);
      assert id in next;
    }
  }

  lemma NewRowsThen(before: map<string, Row>, next: map<string, Row>, after: map<string, Row>, rows: seq<Source>,
                    newIds: seq<string>)
    requires |rows| == |newIds| && rows != [] && rows[0].id in before && newIds[0] !in before
    requires forall s :: s in rows ==> s.id in before
    requires next == NextRows(before, rows[0].id, rows[0].row, newIds[0])
    requires OldRowsKept(next, after, rows[1..]) && NewRowsCarry(next, after, rows[1..], newIds[1..])
    ensures NewRowsCarry(before, after, rows, newIds)
  {
    SplitOffFields(before, rows[0].row, newIds[0]);
    forall k | 0 <= k < |rows| ensures CarriesOver(before, after, rows[k].row, newIds[k]) {
      if k == 0 {
        assert newIds[0] in next;
        assert !Splits(rows[1..], newIds[0]) by {
          assert forall j :: 0 <= j < |rows[1..]| ==> rows[1..][j] in rows;
        }
      } else {
        assert CarriesOver(next, after, rows[1..][k - 1].row, newIds[1..][k - 1]);
      }
    }
  }

  /** Main result: a completed migration splits every selected row into exactly one Orchestrator row
      with its URL and credentials, moves exactly the children of service "orchestrator" to it, keeps
      every other row and child, and keeps names, slugs and children unique. Afterwards the query
      selects nothing, so a second run changes nothing. */
  lemma {:induction false} MigrationConserves(t: Tables, rows: seq<Source>, newIds: seq<string>)
    requires Sound(t) && QueryResult(t, rows) && |rows| == |newIds| && SplitAll(t, rows, newIds).Some?
    ensures var after := SplitAll(t, rows, newIds).value;
      Sound(after) &&
      EnvironmentsSplit(t.environments, after.environments, rows, newIds) &&
      ChildrenMoved(t.snapshots, after.snapshots, rows, newIds) &&
      ChildrenMoved(t.resources, after.resources, rows, newIds) &&
      (forall id :: id in after.environments ==> !HoldsUrl(after.environments[id])) &&
      QueryResult(after, []) && SplitAll(after, [], []) == Some(after)
    ensures forall id :: id in t.environments ==> (Splits(rows, id) <==> HoldsUrl(t.environments[id]))
  {
    LoopConserves(t, rows, newIds);
    var after := SplitAll(t, rows, newIds).value;
    forall id | id in t.environments ensures Splits(rows, id) <==> HoldsUrl(t.environments[id]) {
      SelectedHoldsUrl(t.environments[id]);
      SelectedIsSplit(t, rows, id);
    }
    forall id | id in after.environments
      ensures !HoldsUrl(after.environments[id]) && !Selected(after.environments[id])
    {
      SelectedHoldsUrl(after.environments[id]);
      if id in newIds {
        var k :| 0 <= k < |newIds| && newIds[k] == id;
        assert CarriesOver(t.environments, after.environments, rows[k].row, newIds[k]);
      }
    }
  }

  /** A row of another kind that holds an Orchestrator URL with something but spaces. */
  predicate HoldsUrl(row: Row)
  {
    row.kind != "orchestrator" && row.orchestratorUrl.Some? &&
    exists k :: 0 <= k < |row.orchestratorUrl.value| && row.orchestratorUrl.value[k] != ' '
  }

  lemma SelectedHoldsUrl(row: Row)
    ensures Selected(row) <==> HoldsUrl(row)
  {
  }

  lemma SelectedIsSplit(t: Tables, rows: seq<Source>, id: string)
    requires QueryResult(t, rows) && id in t.environments
    ensures Splits(rows, id) <==> Selected(t.environments[id])
  {
    if Selected(t.environments[id]) {
      assert Source(id, t.environments[id]) in rows;
    }
    if k :| 0 <= k < |rows| && rows[k].id == id {
      assert rows[k] in rows;
    }
  }

  // ----- When the migration completes -----

  predicate EndsWith(s: string, end: string)
  {
    |end| <= |s| && s[|s| - |end|..] == end
  }

  predicate HexDigit(c: char) { '0' <= c <= '9' || 'a' <= c <= 'f' }

  /** A generated UUID that no row has, whose first eight digits end no name and no slug. */
  ghost predicate FreshId(environments: map<string, Row>, newId: string)
  {
    |newId| == 36 && (forall c :: c in Suffix(newId) ==> HexDigit(c)) && newId !in environments &&
    forall id :: id in environments ==>
      !EndsWith(environments[id].name, Suffix(newId)) && !EndsWith(environments[id].slug, Suffix(newId))
  }

  ghost predicate FreshIds(environments: map<string, Row>, newIds: seq<string>)
  {
    (forall k :: 0 <= k < |newIds| ==> FreshId(environments, newIds[k])) &&
    forall i, j :: 0 <= i < j < |newIds| ==> Suffix(newIds[i]) != Suffix(newIds[j])
  }

  /** The generated name and slug of the row fit their columns; a taken one costs nine characters more. */
  predicate Fits(environments: map<string, Row>, row: Row)
  {
    var more := if Taken(environments, BaseName(row), BaseSlug(row)) then 9 else 0;
    |row.name| + 24 + more <= 120 && |row.slug| + 13 + more <= 140
  }

  lemma SplitSucceeds(t: Tables, oldId: string, row: Row, newId: string)
    requires oldId in t.environments && FreshId(t.environments, newId)
    ensures SplitRow(t, oldId, row, newId).Some? <==> Fits(t.environments, row)
  {
  }

  /** A generic name ends in "Orchestrator", and r is not a hexadecimal digit. */
  lemma GenericEnd(front: string, end: string, suffix: string)
    requires |suffix| == 8 && |end| >= 1 && end[|end| - 1] == 'r' && forall c :: c in suffix ==> HexDigit(c)
    ensures !EndsWith(front + end, suffix)
  {
    var s := front + end;
    assert s[|s| - 1] == 'r';
    assert suffix[7] in suffix;
    assert |s| >= 8 ==> s[|s| - 8..][7] == s[|s| - 1];
  }

  lemma OtherEnd(front: string, own: string, suffix: string)
    requires |suffix| == |own| && suffix != own
    ensures !EndsWith(front + own, suffix)
  {
  }

  lemma NewEnds(environments: map<string, Row>, row: Row, newId: string, suffix: string)
    requires |suffix| == 8 == |Suffix(newId)| && Suffix(newId) != suffix && forall c :: c in suffix ==> HexDigit(c)
    ensures !EndsWith(NewName(environments, row, newId), suffix)
    ensures !EndsWith(NewSlug(environments, row, newId), suffix)
  {
    GenericEnd(row.name, " Automation Orchestrator", suffix);
    GenericEnd(row.slug, "-orchestrator", suffix);
    OtherEnd(BaseName(row) + " ", Suffix(newId), suffix);
    OtherEnd(BaseSlug(row) + "-", Suffix(newId), suffix);
  }

  lemma FreshStays(environments: map<string, Row>, oldId: string, row: Row, newId: string, other: string)
    requires oldId in environments && FreshId(environments, newId) && FreshId(environments, other)
    requires Suffix(newId) != Suffix(other)
    ensures FreshId(NextRows(environments, oldId, row, newId), other)
  {
    NewEnds(environments, row, newId, Suffix(other));
    var next, suffix := NextRows(environments, oldId, row, newId), Suffix(other);
    forall id | id in next ensures !EndsWith(next[id].name, suffix) && !EndsWith(next[id].slug, suffix) {
      if id == oldId {
        assert next[id] == Cleared(environments[id]);
      } else if id != newId {
        assert next[id] == environments[id];
      }
    }
    assert newId != other;
  }

  /** The rows split so far do not decide whether the generic name of another row is taken. */
  lemma TakenStays(environments: map<string, Row>, oldId: string, row: Row, newId: string, other: Row)
    requires oldId in environments && FreshId(environments, newId) && row.name != other.name && row.slug != other.slug
    ensures Fits(NextRows(environments, oldId, row, newId), other) <==> Fits(environments, other)
  {
    var next := NextRows(environments, oldId, row, newId);
    NeverGeneric(environments, row, newId, other);
    assert forall id :: id in environments ==>
      id in next && next[id].name == environments[id].name && next[id].slug == environments[id].slug;
    assert forall id :: id in next ==> id in environments || id == newId;
    assert Taken(next, BaseName(other), BaseSlug(other)) <==> Taken(environments, BaseName(other), BaseSlug(other));
  }

  lemma NeverGeneric(environments: map<string, Row>, row: Row, newId: string, other: Row)
    requires FreshId(environments, newId) && row.name != other.name && row.slug != other.slug
    ensures NewName(environments, row, newId) != BaseName(other) && NewSlug(environments, row, newId) != BaseSlug(other)
  {
    GenericEnd(other.name, " Automation Orchestrator", Suffix(newId));
    GenericEnd(other.slug, "-orchestrator", Suffix(newId));
    assert EndsWith(BaseName(row) + " " + Suffix(newId), Suffix(newId));
    assert EndsWith(BaseSlug(row) + "-" + Suffix(newId), Suffix(newId));
    SameEnd(row.name, other.name, " Automation Orchestrator");
    SameEnd(row.slug, other.slug, "-orchestrator");
  }

  lemma SameEnd(a: string, b: string, end: string)
    ensures a + end == b + end ==> a == b
  {
    assert (a + end)[..|a|] == a && (b + end)[..|b|] == b;
  }

  ghost predicate DistinctNames(rows: seq<Source>)
  {
    forall i, j :: 0 <= i < j < |rows| ==> rows[i].row.name != rows[j].row.name && rows[i].row.slug != rows[j].row.slug
  }

  ghost predicate AllFit(environments: map<string, Row>, rows: seq<Source>)
  {
    forall k :: 0 <= k < |rows| ==> Fits(environments, rows[k].row)
  }

  lemma RestFits(t: Tables, rows: seq<Source>, newId: string)
    requires rows != [] && rows[0].id in t.environments && DistinctNames(rows) && FreshId(t.environments, newId)
    ensures AllFit(NextRows(t.environments, rows[0].id, rows[0].row, newId), rows[1..]) <==>
      AllFit(t.environments, rows[1..])
  {
    forall k | 0 <= k < |rows[1..]|
      ensures Fits(NextRows(t.environments, rows[0].id, rows[0].row, newId), rows[1..][k].row) <==>
        Fits(t.environments, rows[1..][k].row)
    {
      TakenStays(t.environments, rows[0].id, rows[0].row, newId, rows[k + 1].row);
    }
  }

  lemma {:induction false} LoopCompletes(t: Tables, rows: seq<Source>, newIds: seq<string>)
    requires |rows| == |newIds| && (forall s :: s in rows ==> s.id in t.environments)
    requires DistinctNames(rows) && FreshIds(t.environments, newIds)
    ensures SplitAll(t, rows, newIds).Some? <==> AllFit(t.environments, rows)
    decreases |rows|
  {
    if rows != [] {
      SplitSucceeds(t, rows[0].id, rows[0].row, newIds[0]);
      assert AllFit(t.environments, rows) <==>
        Fits(t.environments, rows[0].row) && AllFit(t.environments, rows[1..]) by {
        assert forall k :: 0 < k < |rows| ==> rows[k] == rows[1..][k - 1];
      }
      if Fits(t.environments, rows[0].row) {
        var next := SplitRow(t, rows[0].id, rows[0].row, newIds[0]).value;
        forall k | 0 <= k < |newIds[1..]| ensures FreshId(next.environments, newIds[1..][k]) {
          FreshStays(t.environments, rows[0].id, rows[0].row, newIds[0], newIds[k + 1]);
        }
        RestFits(t, rows, newIds[0]);
        LoopCompletes(next, rows[1..], newIds[1..]);
      }
    }
  }

  /** Main result: with fresh ids the migration completes exactly when the generated name and slug of
      every selected row fit their columns, judged by the tables before the migration. */
  lemma MigrationCompletes(t: Tables, rows: seq<Source>, newIds: seq<string>)
    requires Sound(t) && QueryResult(t, rows) && |rows| == |newIds| && FreshIds(t.environments, newIds)
    ensures SplitAll(t, rows, newIds).Some? <==> forall s :: s in rows ==> Fits(t.environments, s.row)
  {
    assert forall k :: 0 <= k < |rows| ==> rows[k] in rows;
    LoopCompletes(t, rows, newIds);
  }

  /** One selected row with a name of 100 characters aborts the migration, whatever id it is given. */
  lemma LongNameAborts(newId: string)
    ensures var row := Row(seq(100, _ => 'a'), "estate", "", "aap", None, Some("https://ao.example"), NoCredentials,
                           NoCredentials, "");
      var t := Tables(map["1" := row], map[], map[]);
      |row.name| <= NameLimit && QueryResult(t, [Source("1", row)]) && SplitAll(t, [Source("1", row)], [newId]) == None
  {
    var row := Row(seq(100, _ => 'a'), "estate", "", "aap", None, Some("https://ao.example"), NoCredentials,
                   NoCredentials, "");
    var t := Tables(map["1" := row], map[], map[]);
    assert Trimmed("https://ao.example", Space);
    assert [Source("1", row)][0] == Source("1", row);
    assert |NewName(t.environments, row, newId)| >= 124;
  }
}
