/** The persisted table of update packages. */
module FotaDb {
  import opened Common
  import opened Decimals
  import opened FotaTypes
  import opened FotaSql

  /** Capacity of the buffer that a write reads the stored URL into. */
  const FILE_NAME_CAPACITY: nat := 256

  // ------------------------------------------------------------------------------------------
  // Rows
  // ------------------------------------------------------------------------------------------

  function Ids(rows: seq<Package>): (ids: seq<int>)
    ensures |ids| == |rows| && forall i :: 0 <= i < |rows| ==> ids[i] == rows[i].pkgId
  {
    seq(|rows|, i requires 0 <= i < |rows| => rows[i].pkgId)
  }

  /** The last row of a package, or what stands for no package. */
  function Lookup(rows: seq<Package>, id: int, tries: int): (p: Package)
    ensures p.pkgId == if id in Ids(rows) then id else NOT_FOUND
    ensures id in Ids(rows) ==> p in rows
  {
    if rows == [] then NoPackage(tries)
    else
      var init, last := rows[..|rows| - 1], rows[|rows| - 1];
      assert Ids(rows) == Ids(init) + [last.pkgId];
      if last.pkgId == id then last else Lookup(init, id, tries)
  }

  /** Every row of a package has a URL that fits a buffer. */
  predicate UrlsFit(rows: seq<Package>, id: int, capacity: nat) {
    forall i :: 0 <= i < |rows| && rows[i].pkgId == id ==> |rows[i].url| <= capacity
  }

  /** A row with the named columns replaced. */
  function Masked(stored: Package, p: Package, mask: set<Column>): Package {
    Package(
      stored.pkgId,
      if Result in mask then p.result else stored.result,
      if State in mask then p.state else stored.state,
      if ProfileId in mask then p.profileId else stored.profileId,
      if PkgUrl in mask then p.url else stored.url,
      if PkgName in mask then p.name else stored.name,
      if Version in mask then p.version else stored.version,
      if SmlTryCount in mask then p.tries else stored.tries,
      if SessionType in mask then p.sessionType else stored.sessionType,
      if IapId in mask then p.iapId else stored.iapId,
      if Size in mask then p.pkgSize else stored.pkgSize,
      if UpdateLtr in mask then p.updateLtr else stored.updateLtr)
  }

  /** The effect of the update statement: every row of the package changes. */
  function UpdateRows(rows: seq<Package>, p: Package, mask: set<Column>): (r: seq<Package>)
    ensures |r| == |rows|
    ensures forall i :: 0 <= i < |rows| ==>
              r[i] == if rows[i].pkgId == p.pkgId then Masked(rows[i], p, mask) else rows[i]
  {
    seq(|rows|, i requires 0 <= i < |rows| =>
      if rows[i].pkgId == p.pkgId then Masked(rows[i], p, mask) else rows[i])
  }

  /** A new state restarts the count of report attempts. */
  function EffectiveMask(mask: set<Column>): set<Column> {
    if State in mask then mask + {SmlTryCount} else mask
  }

  function WithReset(p: Package, mask: set<Column>, setting: Option<int>): Package {
    if State in mask then p.(tries := TryCount(setting)) else p
  }

  datatype Outcome = Inserted | Updated | Refused | Panicked

  /** The new column values are accepted and their statement fits its buffers. */
  predicate Writable(p: Package, mask: set<Column>) {
    AllInRange(mask, p) && Fits(mask, p)
  }

  /** The rows after a write. */
  function SetRows(rows: seq<Package>, p: Package, mask: set<Column>, setting: Option<int>): seq<Package> {
    if mask == {} || !UrlsFit(rows, p.pkgId, FILE_NAME_CAPACITY) then rows
    else if p.pkgId == NOT_FOUND || p.pkgId !in Ids(rows) then rows + [p.(result := NOT_FOUND)]
    else
      var q, m := WithReset(p, mask, setting), EffectiveMask(mask);
      if Writable(q, m) then UpdateRows(rows, q, m) else rows
  }

  /** Whether a write takes effect. */
  predicate Takes(rows: seq<Package>, p: Package, mask: set<Column>, setting: Option<int>) {
    && mask != {} && UrlsFit(rows, p.pkgId, FILE_NAME_CAPACITY)
    && (p.pkgId == NOT_FOUND || p.pkgId !in Ids(rows) || Writable(WithReset(p, mask, setting), EffectiveMask(mask)))
  }

  /** The package's stored URL and its identifier fit the buffers of a write. */
  predicate Sendable(rows: seq<Package>, id: int) {
    id in Ids(rows) && UrlsFit(rows, id, FILE_NAME_CAPACITY) && |Decimal(id)| <= 8
  }

  /** Exactly when a write of a stored package's outcome takes effect. */
  lemma OutcomeTakesIff(rows: seq<Package>, p: Package, mask: set<Column>, setting: Option<int>)
    requires p.pkgId in Ids(rows) && p.pkgId != NOT_FOUND && mask != {} && mask <= {Result, State, SmlTryCount}
    requires AllInRange(mask, p) && (SmlTryCount in mask ==> Short(p.tries))
    ensures Takes(rows, p, mask, setting) <==> Sendable(rows, p.pkgId)
  {
    hide Decimal;
    var q := WithReset(p, mask, setting);
    assert |SQL_WHERE| == 13;
    ReportColumnsFit(EffectiveMask(mask), q);
  }

  // ------------------------------------------------------------------------------------------
  // The database object
  // ------------------------------------------------------------------------------------------

  class Database {
    var rows: seq<Package>
    /** The number of report attempts set in the repository, when it can be read. */
    var genericAlertRetries: Option<int>

    constructor ()
      ensures rows == []
    {
      rows := [];
      genericAlertRetries := None;
    }

    /** The identifiers of all rows. */
    method GetAll() returns (states: seq<int>)
      ensures states == Ids(rows)
    {
      states := [];
      for i := 0 to |rows|
        invariant states == Ids(rows[..i])
      {
        assert Ids(rows[..i + 1]) == Ids(rows[..i]) + [rows[i].pkgId];
        states := states + [rows[i].pkgId];
      }
      assert rows[..|rows|] == rows;
    }

    /** Reads a package; `None` stands for the panic on a URL longer than the caller's buffer. */
    method GetState(id: int, capacity: nat) returns (s: Option<Package>)
      ensures s == if UrlsFit(rows, id, capacity) then Some(Lookup(rows, id, TryCount(genericAlertRetries))) else None
    {
      var found := NoPackage(TryCount(genericAlertRetries));
      for i := 0 to |rows|
        invariant UrlsFit(rows[..i], id, capacity)
        invariant found == Lookup(rows[..i], id, TryCount(genericAlertRetries))
      {
        assert rows[..i + 1][..i] == rows[..i];
        if rows[i].pkgId == id {
          if |rows[i].url| > capacity {
            return None;
          }
          found := rows[i];
        }
      }
      assert rows[..|rows|] == rows;
      s := Some(found);
    }

    /** Inserts a row; no execution has given it a result yet. */
    method AddPackageState(state: Package)
      modifies this`rows
      ensures rows == old(rows) + [state.(result := NOT_FOUND)]
    {
      var pkgstate := state.(result := NOT_FOUND);
      rows := rows + [pkgstate];
    }

    /** Executes an update of every row of a package. */
    method UpdateAll(p: Package, mask: set<Column>)
      modifies this`rows
      ensures rows == UpdateRows(old(rows), p, mask)
    {
      hide Masked;
      ghost var before := rows;
      for i := 0 to |rows|
        invariant |rows| == |before|
        invariant forall k :: 0 <= k < i ==> rows[k] == UpdateRows(before, p, mask)[k]
        invariant forall k :: i <= k < |before| ==> rows[k] == before[k]
      {
        if rows[i].pkgId == p.pkgId {
          rows := rows[i := Masked(rows[i], p, mask)];
        }
      }
    }

    /** Writes a package.  The caller's copy gets the restarted count even when the write is refused. */
    method SetState(state: Package, changedFields: set<Column>) returns (outcome: Outcome, state': Package)
      modifies this`rows
      ensures rows == SetRows(old(rows), state, changedFields, genericAlertRetries)
      ensures changedFields == {} ==> outcome == Outcome.Refused && state' == state
      ensures changedFields != {} && !UrlsFit(old(rows), state.pkgId, FILE_NAME_CAPACITY) ==>
                outcome == Panicked && state' == state
      ensures outcome == Inserted <==>
                changedFields != {} && UrlsFit(old(rows), state.pkgId, FILE_NAME_CAPACITY)
                && (state.pkgId == NOT_FOUND || state.pkgId !in Ids(old(rows)))
      ensures outcome == Inserted ==> state' == state
      ensures changedFields != {} && UrlsFit(old(rows), state.pkgId, FILE_NAME_CAPACITY) && outcome != Inserted ==>
                && state' == WithReset(state, changedFields, genericAlertRetries)
                && (outcome == Updated <==> Writable(state', EffectiveMask(changedFields)))
                && (outcome == Panicked <==> Overruns(EffectiveMask(changedFields), state'))
    {
      hide AllInRange;
      hide Fits;
      hide TryCount;
      state' := state;
      if changedFields == {} {
        return Outcome.Refused, state';
      }
      var found := GetState(state.pkgId, FILE_NAME_CAPACITY);
      if found.None? {
        return Panicked, state';
      }
      if found.value.pkgId == NOT_FOUND {
        AddPackageState(state);
        return Inserted, state';
      }
      var mask := changedFields;
      if State in changedFields {
        mask := mask + {SmlTryCount};
        state' := state'.(tries := TryCount(genericAlertRetries));
      }
      assert mask != {} by {
        var c :| c in changedFields;
        assert c in mask;
      }
      var built := Build(mask, state');
      match built
      case Refused => outcome := Outcome.Refused;
      case Overrun => outcome := Panicked;
      case Statement(_) =>
        UpdateAll(state', mask);
        outcome := Updated;
    }
  }

  // ------------------------------------------------------------------------------------------
  // The table as a map
  // ------------------------------------------------------------------------------------------

  /** No two rows of one package, and no row of the identifier that stands for no package. */
  predicate Unique(rows: seq<Package>) {
    && (forall i :: 0 <= i < |rows| ==> rows[i].pkgId != NOT_FOUND)
    && (forall i, j :: 0 <= i < j < |rows| ==> rows[i].pkgId != rows[j].pkgId)
  }

  function Table(rows: seq<Package>): map<int, Package> {
    if rows == [] then map[] else Table(rows[..|rows| - 1])[rows[|rows| - 1].pkgId := rows[|rows| - 1]]
  }

  lemma {:induction false} TableKeys(rows: seq<Package>)
    ensures forall k :: k in Table(rows) <==> k in Ids(rows)
  {
    if rows != [] {
      var init := rows[..|rows| - 1];
      TableKeys(init);
      assert Ids(rows) == Ids(init) + [rows[|rows| - 1].pkgId];
    }
  }

  /** Reading a package is looking it up in the map. */
  lemma {:induction false} LookupIsTable(rows: seq<Package>, id: int, tries: int)
    ensures Lookup(rows, id, tries) == if id in Table(rows) then Table(rows)[id] else NoPackage(tries)
  {
    if rows != [] {
      LookupIsTable(rows[..|rows| - 1], id, tries);
    }
  }

  /** What reading a package without a row yields: an idle one, without a result, that is no package. */
  lemma AbsentReads(rows: seq<Package>, id: int, tries: int)
    requires id !in Ids(rows)
    ensures Lookup(rows, id, tries) == Package(-1, -1, 10, 0, "", "", "", tries, 0, -1, 0, false)
  {
    LookupIsTable(rows, id, tries);
    TableKeys(rows);
  }

  /** In a table with unique rows an update changes the one entry of the package. */
  lemma {:induction false} UpdateIsTable(rows: seq<Package>, p: Package, mask: set<Column>)
    requires Unique(rows)
    ensures var t := Table(rows);
            Table(UpdateRows(rows, p, mask)) ==
            if p.pkgId in t then t[p.pkgId := Masked(t[p.pkgId], p, mask)] else t
  {
    hide Masked;
    if rows != [] {
      var init, last := rows[..|rows| - 1], rows[|rows| - 1];
      var r := UpdateRows(rows, p, mask);
      assert r[..|r| - 1] == UpdateRows(init, p, mask);
      UpdateIsTable(init, p, mask);
      TableKeys(init);
      assert last.pkgId !in Ids(init);
      MaskedKeepsId(last, p, mask);
    }
  }

  lemma MaskedKeepsId(stored: Package, p: Package, mask: set<Column>)
    ensures Masked(stored, p, mask).pkgId == stored.pkgId
  {
  }

  /** A write as the map sees it. */
  function SetMap(t: map<int, Package>, p: Package, mask: set<Column>, setting: Option<int>): map<int, Package> {
    if mask == {} then t
    else if p.pkgId !in t then t[p.pkgId := p.(result := NOT_FOUND)]
    else
      var q, m := WithReset(p, mask, setting), EffectiveMask(mask);
      if |t[p.pkgId].url| <= FILE_NAME_CAPACITY && Writable(q, m) then t[p.pkgId := Masked(t[p.pkgId], q, m)]
      else t
  }

  lemma UrlsFitInTable(rows: seq<Package>, id: int, capacity: nat)
    requires Unique(rows)
    ensures UrlsFit(rows, id, capacity) <==> (id in Table(rows) ==> |Table(rows)[id].url| <= capacity)
  {
    TableKeys(rows);
    LookupIsTable(rows, id, 0);
    if id in Ids(rows) {
      var p := Lookup(rows, id, 0);
      var i :| 0 <= i < |rows| && rows[i] == p;
      assert rows[i].pkgId == id;
    }
  }

  /** One write keeps the rows unique and acts as an update of a map. */
  lemma SetRefinesMap(rows: seq<Package>, p: Package, mask: set<Column>, setting: Option<int>)
    requires Unique(rows) && p.pkgId != NOT_FOUND
    ensures var r := SetRows(rows, p, mask, setting);
            Unique(r) && Table(r) == SetMap(Table(rows), p, mask, setting)
  {
    hide AllInRange;
    hide Fits;
    hide Masked;
    hide UrlsFit;
    TableKeys(rows);
    UrlsFitInTable(rows, p.pkgId, FILE_NAME_CAPACITY);
    var r := SetRows(rows, p, mask, setting);
    if p.pkgId !in Ids(rows) {
      if mask != {} {
        assert r[..|r| - 1] == rows;
        assert forall i :: 0 <= i < |rows| ==> Ids(rows)[i] == r[i].pkgId;
      }
    } else {
      var q, m := WithReset(p, mask, setting), EffectiveMask(mask);
      UpdateIsTable(rows, q, m);
      UpdateKeepsUnique(rows, q, m);
    }
  }

  lemma UpdateKeepsUnique(rows: seq<Package>, p: Package, mask: set<Column>)
    requires Unique(rows)
    ensures Unique(UpdateRows(rows, p, mask)) && Ids(UpdateRows(rows, p, mask)) == Ids(rows)
  {
  }

  // ------------------------------------------------------------------------------------------
  // Runs of writes
  // ------------------------------------------------------------------------------------------

  /** One write, with the repository's setting at its time. */
  datatype Write = Write(package: Package, mask: set<Column>, setting: Option<int>)

  function RunRows(rows: seq<Package>, ws: seq<Write>): seq<Package> {
    if ws == [] then rows
    else
      var w := ws[|ws| - 1];
      SetRows(RunRows(rows, ws[..|ws| - 1]), w.package, w.mask, w.setting)
  }

  function RunMap(t: map<int, Package>, ws: seq<Write>): map<int, Package> {
    if ws == [] then t
    else
      var w := ws[|ws| - 1];
      SetMap(RunMap(t, ws[..|ws| - 1]), w.package, w.mask, w.setting)
  }

  predicate RealIds(ws: seq<Write>) {
    forall i :: 0 <= i < |ws| ==> ws[i].package.pkgId != NOT_FOUND
  }

  /** In every run of writes of real packages the identifiers stay unique, and the table goes
      through the same states as a map from identifier to row. */
  lemma {:induction false} RunRefinesMap(rows: seq<Package>, ws: seq<Write>)
    requires Unique(rows) && RealIds(ws)
    ensures Unique(RunRows(rows, ws)) && Table(RunRows(rows, ws)) == RunMap(Table(rows), ws)
  {
    hide SetRows;
    hide SetMap;
    if ws != [] {
      var w := ws[|ws| - 1];
      RunRefinesMap(rows, ws[..|ws| - 1]);
      SetRefinesMap(RunRows(rows, ws[..|ws| - 1]), w.package, w.mask, w.setting);
    }
  }

  /** What reading any package yields after a write: when the write takes effect, the written package
      has exactly the named columns changed, and the restarted count if the state was named; a first
      write inserts the whole row without a result; otherwise, and for every other package, what is
      read is as before. */
  lemma GetAfterSet(rows: seq<Package>, p: Package, mask: set<Column>, setting: Option<int>, id: int, tries: int)
    requires Unique(rows) && p.pkgId != NOT_FOUND
    ensures var before, after := Lookup(rows, id, tries), Lookup(SetRows(rows, p, mask, setting), id, tries);
            if id != p.pkgId || !Takes(rows, p, mask, setting) then after == before
            else if id !in Ids(rows) then after == p.(result := NOT_FOUND)
            else after == Masked(before, WithReset(p, mask, setting), EffectiveMask(mask))
  {
    hide AllInRange;
    hide Fits;
    hide Masked;
    hide UrlsFit;
    SetRefinesMap(rows, p, mask, setting);
    LookupIsTable(rows, id, tries);
    LookupIsTable(SetRows(rows, p, mask, setting), id, tries);
    TableKeys(rows);
    UrlsFitInTable(rows, p.pkgId, FILE_NAME_CAPACITY);
  }

  /** The same column by column, for a stored package whose write takes effect: each named column gets
      its own value, each other keeps it, and a named state also restarts the count. */
  lemma ColumnsAfterSet(rows: seq<Package>, p: Package, mask: set<Column>, setting: Option<int>, tries: int)
    requires Unique(rows) && p.pkgId in Ids(rows) && Takes(rows, p, mask, setting)
    ensures var before := Lookup(rows, p.pkgId, tries);
            var after := Lookup(SetRows(rows, p, mask, setting), p.pkgId, tries);
            && after.pkgId == p.pkgId
            && after.result == (if Result in mask then p.result else before.result)
            && after.state == (if State in mask then p.state else before.state)
            && after.profileId == (if ProfileId in mask then p.profileId else before.profileId)
            && after.url == (if PkgUrl in mask then p.url else before.url)
            && after.name == (if PkgName in mask then p.name else before.name)
            && after.version == (if Version in mask then p.version else before.version)
            && after.tries == (if State in mask then TryCount(setting)
                               else if SmlTryCount in mask then p.tries
                               else before.tries)
            && after.sessionType == (if SessionType in mask then p.sessionType else before.sessionType)
            && after.iapId == (if IapId in mask then p.iapId else before.iapId)
            && after.pkgSize == (if Size in mask then p.pkgSize else before.pkgSize)
            && after.updateLtr == (if UpdateLtr in mask then p.updateLtr else before.updateLtr)
  {
    hide Takes;
    hide SetRows;
    hide TryCount;
    hide Lookup;
    GetAfterSet(rows, p, mask, setting, p.pkgId, tries);
  }

  /** Writing package -1 breaks uniqueness: it is inserted again each time. */
  lemma AbsentIdDuplicates(p: Package, mask: set<Column>, setting: Option<int>)
    requires p.pkgId == NOT_FOUND && mask != {} && |p.url| <= FILE_NAME_CAPACITY
    ensures var q := p.(result := NOT_FOUND);
            RunRows([], [Write(p, mask, setting), Write(p, mask, setting)]) == [q, q]
  {
    var w := Write(p, mask, setting);
    assert [w, w][..1] == [w] && [w][..0] == [];
    assert RunRows([], [w]) == [p.(result := NOT_FOUND)];
  }
}
