/** The statement that updates a row of the package table, and the buffer that it is built in. */
module FotaSql {
  import opened Common
  import opened Decimals
  import opened FotaTypes

  const SQL_BEGIN: string := "UPDATE State SET "
  const SQL_WHERE: string := " WHERE pkgID="
  /** Capacity of the buffer for the end of the statement. */
  const END_CAPACITY: nat := 21

  /** The columns in the order in which the statement assigns them. */
  const ORDER: seq<Column> :=
    [Result, State, ProfileId, PkgUrl, PkgName, Version, SmlTryCount, SessionType, IapId, Size, UpdateLtr]

  function NameOf(c: Column): string {
    match c
    case Result => "Result"
    case State => "State"
    case ProfileId => "profileid"
    case PkgUrl => "pkgurl"
    case PkgName => "pkgname"
    case Version => "Version"
    case SmlTryCount => "SmlTryCount"
    case SessionType => "SessionType"
    case IapId => "IapId"
    case Size => "PkgSize"
    case UpdateLtr => "UpdateLtr"
  }

  function Quoted(s: string): string {
    "'" + s + "'"
  }

  function ValueIn(c: Column, p: Package): string {
    match c
    case Result => Decimal(p.result)
    case State => Decimal(p.state)
    case ProfileId => Decimal(p.profileId)
    case PkgUrl => Quoted(p.url)
    case PkgName => Quoted(p.name)
    case Version => Quoted(p.version)
    case SmlTryCount => Decimal(p.tries)
    case SessionType => Decimal(p.sessionType)
    case IapId => Decimal(p.iapId)
    case Size => Decimal(p.pkgSize)
    case UpdateLtr => Decimal(if p.updateLtr then 1 else 0)
  }

  function Assignment(c: Column, p: Package): string {
    NameOf(c) + "=" + ValueIn(c, p)
  }

  /** The column's value is one that the update accepts. */
  predicate InRange(c: Column, p: Package) {
    match c
    case Result => -1 <= p.result <= 602
    case State => 0 <= p.state <= 100
    case SmlTryCount => p.tries >= 0
    case IapId => p.iapId >= -1
    case _ => true
  }

  // ------------------------------------------------------------------------------------------
  // The size that is reserved
  // ------------------------------------------------------------------------------------------

  function Reserved(c: Column, p: Package): nat {
    match c
    case Result => 4 + 7 + 4
    case State => 4 + 5 + 4
    case ProfileId => 4 + 9 + 4
    case PkgUrl => |p.url| + 6 + 4
    case PkgName => |p.name| + 7 + 4
    case Version => |p.version| + 7 + 4
    case SmlTryCount => 4 + 11 + 4
    case SessionType => 4 + 11 + 4
    case IapId => 4 + 5 + 4
    case Size => 4 + 7 + 10
    case UpdateLtr => 4 + 11 + 4
  }

  /** Sum of the sizes reserved for the first `k` columns of the mask. */
  function ReservedFirst(mask: set<Column>, p: Package, k: nat): nat
    requires k <= |ORDER|
  {
    if k == 0 then 0
    else ReservedFirst(mask, p, k - 1) + if ORDER[k - 1] in mask then Reserved(ORDER[k - 1], p) else 0
  }

  lemma NothingReserved(mask: set<Column>, p: Package)
    ensures ReservedFirst(mask, p, 0) == 0
  {
  }

  method AddReserved(mask: set<Column>, p: Package, c: Column, ghost k: nat, size: nat) returns (r: nat)
    requires k < |ORDER| && ORDER[k] == c && size == ReservedFirst(mask, p, k)
    ensures r == ReservedFirst(mask, p, k + 1)
  {
    r := size + if c in mask then Reserved(c, p) else 0;
  }

  method DetermineCharNeeded(mask: set<Column>, p: Package) returns (sqlsize: nat)
    ensures sqlsize == ReservedFirst(mask, p, |ORDER|)
  {
    hide Reserved;
    hide ReservedFirst;
    NothingReserved(mask, p);
    sqlsize := AddReserved(mask, p, Result, 0, 0);
    sqlsize := AddReserved(mask, p, State, 1, sqlsize);
    sqlsize := AddReserved(mask, p, ProfileId, 2, sqlsize);
    sqlsize := AddReserved(mask, p, PkgUrl, 3, sqlsize);
    sqlsize := AddReserved(mask, p, PkgName, 4, sqlsize);
    sqlsize := AddReserved(mask, p, Version, 5, sqlsize);
    sqlsize := AddReserved(mask, p, SmlTryCount, 6, sqlsize);
    sqlsize := AddReserved(mask, p, SessionType, 7, sqlsize);
    sqlsize := AddReserved(mask, p, IapId, 8, sqlsize);
    sqlsize := AddReserved(mask, p, Size, 9, sqlsize);
    sqlsize := AddReserved(mask, p, UpdateLtr, 10, sqlsize);
  }

  // ------------------------------------------------------------------------------------------
  // The text
  // ------------------------------------------------------------------------------------------

  /** The assignments of the first `k` columns of the mask, in order. */
  function Assignments(mask: set<Column>, p: Package, k: nat): (r: seq<string>)
    requires k <= |ORDER|
  {
    if k == 0 then []
    else Assignments(mask, p, k - 1) + if ORDER[k - 1] in mask then [Assignment(ORDER[k - 1], p)] else []
  }

  /** Each text followed by a comma. */
  function Terminated(texts: seq<string>): string {
    if texts == [] then "" else Terminated(texts[..|texts| - 1]) + (texts[|texts| - 1] + ",")
  }

  /** The texts with commas between them. */
  function Separated(texts: seq<string>): string {
    if texts == [] then ""
    else if |texts| == 1 then texts[0]
    else Separated(texts[..|texts| - 1]) + ("," + texts[|texts| - 1])
  }

  lemma {:induction false} TerminatedIsSeparated(texts: seq<string>)
    requires texts != []
    ensures Terminated(texts) == Separated(texts) + ","
  {
    var init, last := texts[..|texts| - 1], texts[|texts| - 1];
    if |texts| == 1 {
      assert Terminated(init) == "";
    } else {
      TerminatedIsSeparated(init);
      assert Separated(init) + "," + (last + ",") == Separated(init) + ("," + last) + ",";
    }
  }

  function EndOf(p: Package): string {
    SQL_WHERE + Decimal(p.pkgId)
  }

  /** The complete statement. */
  function StatementOf(mask: set<Column>, p: Package): string {
    SQL_BEGIN + Separated(Assignments(mask, p, |ORDER|)) + EndOf(p)
  }

  lemma AssignmentsStep(mask: set<Column>, p: Package, k: nat)
    requires k < |ORDER|
    ensures ORDER[k] !in mask ==> Assignments(mask, p, k + 1) == Assignments(mask, p, k)
    ensures ORDER[k] in mask ==>
              Terminated(Assignments(mask, p, k + 1)) ==
              Terminated(Assignments(mask, p, k)) + (Assignment(ORDER[k], p) + ",")
  {
    var a := Assignments(mask, p, k);
    if ORDER[k] in mask {
      assert (a + [Assignment(ORDER[k], p)])[..|a|] == a;
    }
  }

  /** Texts of the assignments alone never outgrow those of more columns. */
  lemma {:induction false} TerminatedGrows(mask: set<Column>, p: Package, j: nat, k: nat)
    requires j <= k <= |ORDER|
    ensures |Terminated(Assignments(mask, p, j))| <= |Terminated(Assignments(mask, p, k))|
  {
    if j < k {
      TerminatedGrows(mask, p, j, k - 1);
      AssignmentsStep(mask, p, k - 1);
    }
  }

  lemma {:induction false} SomeAssignment(mask: set<Column>, p: Package, k: nat, j: nat)
    requires j < k <= |ORDER| && ORDER[j] in mask
    ensures Assignments(mask, p, k) != []
  {
    if j < k - 1 {
      SomeAssignment(mask, p, k - 1, j);
    }
  }

  lemma ColumnIndex(c: Column) returns (j: nat)
    ensures j < |ORDER| && ORDER[j] == c
  {
    j := match c
      case Result => 0 case State => 1 case ProfileId => 2 case PkgUrl => 3 case PkgName => 4 case Version => 5
      case SmlTryCount => 6 case SessionType => 7 case IapId => 8 case Size => 9 case UpdateLtr => 10;
  }

  /** The assignments as the database reads them: every column of the table gets the member of the row
      that it is named after, numbers plain and texts between quotes. */
  lemma AssignmentTexts(p: Package)
    ensures Assignment(Result, p) == "Result" + "=" + Decimal(p.result)
    ensures Assignment(State, p) == "State" + "=" + Decimal(p.state)
    ensures Assignment(ProfileId, p) == "profileid" + "=" + Decimal(p.profileId)
    ensures Assignment(PkgUrl, p) == "pkgurl" + "=" + ("'" + p.url + "'")
    ensures Assignment(PkgName, p) == "pkgname" + "=" + ("'" + p.name + "'")
    ensures Assignment(Version, p) == "Version" + "=" + ("'" + p.version + "'")
    ensures Assignment(SmlTryCount, p) == "SmlTryCount" + "=" + Decimal(p.tries)
    ensures Assignment(SessionType, p) == "SessionType" + "=" + Decimal(p.sessionType)
    ensures Assignment(IapId, p) == "IapId" + "=" + Decimal(p.iapId)
    ensures Assignment(Size, p) == "PkgSize" + "=" + Decimal(p.pkgSize)
    ensures Assignment(UpdateLtr, p) == "UpdateLtr" + "=" + (if p.updateLtr then "1" else "0")
  {
    hide Decimal;
    SmallDecimals();
  }

  lemma SmallDecimals()
    ensures Decimal(0) == "0" && Decimal(1) == "1"
  {
  }

  // ------------------------------------------------------------------------------------------
  // Building the statement
  // ------------------------------------------------------------------------------------------

  /** Room is enough for the assignments, and for the end of the statement. */
  predicate Fits(mask: set<Column>, p: Package) {
    && |EndOf(p)| <= END_CAPACITY
    && |Terminated(Assignments(mask, p, |ORDER|))| <= ReservedFirst(mask, p, |ORDER|) + 1
  }

  predicate AllInRange(mask: set<Column>, p: Package) {
    forall c :: c in mask ==> InRange(c, p)
  }

  /** Which values an update accepts. */
  lemma AcceptedIff(mask: set<Column>, p: Package)
    ensures AllInRange(mask, p) <==>
            && (Result in mask ==> -1 <= p.result <= 602) && (State in mask ==> 0 <= p.state <= 100)
            && (SmlTryCount in mask ==> p.tries >= 0) && (IapId in mask ==> p.iapId >= -1)
  {
    forall c | c in mask
      ensures InRange(c, p) <==> (c == Result ==> -1 <= p.result <= 602) && (c == State ==> 0 <= p.state <= 100)
                                 && (c == SmlTryCount ==> p.tries >= 0) && (c == IapId ==> p.iapId >= -1)
    {
    }
  }

  /** Position of the first column of the mask, from `k` on, whose value is out of range. */
  function FirstRefused(mask: set<Column>, p: Package, k: nat): (n: nat)
    requires k <= |ORDER|
    ensures k <= n <= |ORDER| && (n < |ORDER| ==> ORDER[n] in mask && !InRange(ORDER[n], p))
    ensures forall j :: k <= j < n && ORDER[j] in mask ==> InRange(ORDER[j], p)
    decreases |ORDER| - k
  {
    if k == |ORDER| || (ORDER[k] in mask && !InRange(ORDER[k], p)) then k else FirstRefused(mask, p, k + 1)
  }

  /** The construction panics: the end of the statement is too long, or the assignments before the
      first value out of range fill the buffer, where the place of the end can still be used; or all
      values are in range, and the whole statement does not fit. */
  predicate Overruns(mask: set<Column>, p: Package) {
    var n := FirstRefused(mask, p, 0);
    || |EndOf(p)| > END_CAPACITY
    || |Terminated(Assignments(mask, p, n))| >
       ReservedFirst(mask, p, |ORDER|) + if n == |ORDER| then 1 else |EndOf(p)|
  }

  datatype Built =
    | Statement(sql: string)
    /** Left with KErrArgument. */
    | Refused
    /** Panicked on a full buffer. */
    | Overrun

  /** A buffer of fixed capacity, and what has become of the construction in it. */
  class Builder {
    var sql: string
    const capacity: nat
    var refused: bool
    var overrun: bool

    constructor (capacity: nat)
      ensures this.capacity == capacity && sql == "" && !refused && !overrun
    {
      this.capacity := capacity;
      sql := "";
      refused := false;
      overrun := false;
    }

    /** The first `k` columns have been handled. */
    ghost predicate Handled(mask: set<Column>, p: Package, k: nat)
      requires k <= |ORDER|
      reads this
    {
      && (!refused && !overrun ==>
            && sql == SQL_BEGIN + Terminated(Assignments(mask, p, k)) && |sql| <= capacity
            && forall j :: 0 <= j < k && ORDER[j] in mask ==> InRange(ORDER[j], p))
      && (refused ==>
            && FirstRefused(mask, p, 0) < k && !overrun
            && |SQL_BEGIN| + |Terminated(Assignments(mask, p, FirstRefused(mask, p, 0)))| <= capacity)
      && (overrun ==>
            exists j :: 0 <= j <= k && j <= FirstRefused(mask, p, 0)
                        && |SQL_BEGIN| + |Terminated(Assignments(mask, p, j))| > capacity)
    }

    /** Appends, or panics when the buffer is full. */
    method Append(text: string)
      modifies this`sql, this`overrun
      ensures overrun == (old(overrun) || |old(sql)| + |text| > capacity)
      ensures sql == if overrun then old(sql) else old(sql) + text
    {
      if !overrun {
        if |sql| + |text| > capacity {
          overrun := true;
        } else {
          sql := sql + text;
        }
      }
    }

    /** Handles one column: refuses a value out of range, or appends the assignment. */
    method Assign(mask: set<Column>, p: Package, c: Column, ghost k: nat)
      requires k < |ORDER| && ORDER[k] == c && Handled(mask, p, k)
      modifies this`sql, this`refused, this`overrun
      ensures Handled(mask, p, k + 1)
    {
      hide Assignment;
      hide Terminated;
      AssignmentsStep(mask, p, k);
      TerminatedGrows(mask, p, k, k + 1);
      if refused || overrun || c !in mask {
        return;
      }
      if !InRange(c, p) {
        refused := true;
        return;
      }
      Associate(SQL_BEGIN, Terminated(Assignments(mask, p, k)), Assignment(c, p) + ",");
      Append(Assignment(c, p) + ",");
    }

    method AssignAll(mask: set<Column>, p: Package)
      requires Handled(mask, p, 0)
      modifies this`sql, this`refused, this`overrun
      ensures Handled(mask, p, |ORDER|)
    {
      hide Assignment;
      hide InRange;
      hide Handled;
      Assign(mask, p, Result, 0);
      Assign(mask, p, State, 1);
      Assign(mask, p, ProfileId, 2);
      Assign(mask, p, PkgUrl, 3);
      Assign(mask, p, PkgName, 4);
      Assign(mask, p, Version, 5);
      Assign(mask, p, SmlTryCount, 6);
      Assign(mask, p, SessionType, 7);
      Assign(mask, p, IapId, 8);
      Assign(mask, p, Size, 9);
      Assign(mask, p, UpdateLtr, 10);
    }
  }

  /** Builds the statement for a non-empty mask.  It is completed exactly when every value is in
      range and all texts fit, and then it is the comma-separated list of assignments between its
      fixed parts. */
  method Build(mask: set<Column>, p: Package) returns (r: Built)
    requires mask != {}
    ensures r.Statement? <==> AllInRange(mask, p) && Fits(mask, p)
    ensures r.Statement? ==> r.sql == StatementOf(mask, p)
    ensures r.Overrun? <==> Overruns(mask, p)
  {
    hide Terminated;
    hide Separated;
    hide Assignments;
    hide ReservedFirst;
    var sqlsize := DetermineCharNeeded(mask, p);
    var sqlEnd := EndOf(p);
    if |sqlEnd| > END_CAPACITY {
      return Overrun;
    }
    var builder := new Builder(|SQL_BEGIN| + sqlsize + |sqlEnd|);
    builder.Append(SQL_BEGIN);
    NothingAssigned(mask, p);
    builder.AssignAll(mask, p);
    if builder.overrun {
      ghost var j :| 0 <= j <= |ORDER| && j <= FirstRefused(mask, p, 0)
               && |SQL_BEGIN| + |Terminated(Assignments(mask, p, j))| > builder.capacity;
      OverrunIsFinal(mask, p, j);
      return Overrun;
    }
    if builder.refused {
      return Refused;
    }
    AllHandled(mask, p);
    var text := builder.sql;
    builder.sql := text[..|text| - 1];
    builder.Append(sqlEnd);
    r := if builder.overrun then Overrun else Statement(builder.sql);
  }

  /** A buffer that is full while assignments are made would be full at the end. */
  lemma OverrunIsFinal(mask: set<Column>, p: Package, j: nat)
    requires j <= FirstRefused(mask, p, 0)
    requires |Terminated(Assignments(mask, p, j))| > ReservedFirst(mask, p, |ORDER|) + |EndOf(p)|
    ensures Overruns(mask, p) && !Fits(mask, p)
  {
    hide Terminated;
    hide Assignments;
    hide ReservedFirst;
    TerminatedGrows(mask, p, j, FirstRefused(mask, p, 0));
    TerminatedGrows(mask, p, j, |ORDER|);
  }

  lemma NothingAssigned(mask: set<Column>, p: Package)
    ensures Terminated(Assignments(mask, p, 0)) == "" && "" + SQL_BEGIN == SQL_BEGIN + ""
  {
  }

  /** The commas behind all assignments are those between them and one more. */
  lemma AllHandled(mask: set<Column>, p: Package)
    requires mask != {}
    ensures var t, s := Terminated(Assignments(mask, p, |ORDER|)), Separated(Assignments(mask, p, |ORDER|));
            |t| == |s| + 1 && (SQL_BEGIN + t)[..|SQL_BEGIN + t| - 1] == SQL_BEGIN + s
    ensures (forall j :: 0 <= j < |ORDER| && ORDER[j] in mask ==> InRange(ORDER[j], p)) ==> AllInRange(mask, p)
  {
    hide Assignments;
    hide InRange;
    var c :| c in mask;
    var j := ColumnIndex(c);
    SomeAssignment(mask, p, |ORDER|, j);
    TerminatedIsSeparated(Assignments(mask, p, |ORDER|));
    forall c | c in mask
      ensures exists j :: 0 <= j < |ORDER| && ORDER[j] == c
    {
      var j := ColumnIndex(c);
    }
  }

  // ------------------------------------------------------------------------------------------
  // When the statement fits
  // ------------------------------------------------------------------------------------------

  /** Numbers of at most six characters. */
  predicate Short(n: int) {
    -99_999 <= n <= 999_999
  }

  lemma ShortDecimal(n: int)
    ensures |Decimal(n)| <= 6 <==> Short(n)
  {
    DigitsLength(if n < 0 then -n else n, if n < 0 then 5 else 6);
    assert Power10(2) == 100 && Power10(4) == 10_000 && Power10(5) == 100_000 && Power10(6) == 1_000_000;
  }

  lemma SizeDecimal(n: PkgSize)
    ensures |Decimal(n)| <= 10
  {
    DigitsLength(n, 10);
    assert Power10(3) == 1000 && Power10(6) == 1_000_000 && Power10(8) == 100_000_000 && Power10(10) == 10_000_000_000;
  }

  /** The numbers of the row that the asserted ranges do not bound are short. */
  predicate ShortNumbers(p: Package) {
    Short(p.profileId) && Short(p.tries) && Short(p.sessionType) && Short(p.iapId)
  }

  lemma AssignmentFits(c: Column, p: Package)
    requires InRange(c, p) && ShortNumbers(p)
    ensures |Assignment(c, p)| + 1 <= Reserved(c, p)
  {
    hide Decimal;
    match c
    case Result => ShortDecimal(p.result);
    case State => ShortDecimal(p.state);
    case ProfileId => ShortDecimal(p.profileId);
    case SmlTryCount => ShortDecimal(p.tries);
    case SessionType => ShortDecimal(p.sessionType);
    case IapId => ShortDecimal(p.iapId);
    case Size => SizeDecimal(p.pkgSize);
    case UpdateLtr => ShortDecimal(if p.updateLtr then 1 else 0);
    case _ =>
  }

  lemma {:induction false} FirstFit(mask: set<Column>, p: Package, k: nat)
    requires k <= |ORDER| && AllInRange(mask, p) && ShortNumbers(p)
    ensures |Terminated(Assignments(mask, p, k))| <= ReservedFirst(mask, p, k)
  {
    if k > 0 {
      FirstFit(mask, p, k - 1);
      AssignmentsStep(mask, p, k - 1);
      if ORDER[k - 1] in mask {
        AssignmentFits(ORDER[k - 1], p);
      }
    }
  }

  /** With values in range, other numbers of at most six characters and an identifier of at most
      eight, the statement fits, whatever the columns and the lengths of the texts are. */
  lemma ShortNumbersFit(mask: set<Column>, p: Package)
    requires AllInRange(mask, p) && ShortNumbers(p) && |Decimal(p.pkgId)| <= 8
    ensures Fits(mask, p)
  {
    FirstFit(mask, p, |ORDER|);
  }

  /** A statement that writes no more than these columns fits unless the identifier is too long. */
  lemma ReportColumnsFit(mask: set<Column>, r: Package)
    requires mask <= {Result, State, SmlTryCount} && AllInRange(mask, r)
    requires SmlTryCount in mask ==> Short(r.tries)
    ensures Fits(mask, r) <==> |EndOf(r)| <= END_CAPACITY
  {
    var p := r.(profileId := 0, sessionType := 0, iapId := 0, tries := if SmlTryCount in mask then r.tries else 0);
    ReportAssignments(mask, r, p, |ORDER|);
    FirstFit(mask, p, |ORDER|);
  }

  /** Columns outside the mask do not matter. */
  lemma {:induction false} ReportAssignments(mask: set<Column>, r: Package, p: Package, k: nat)
    requires k <= |ORDER| && mask <= {Result, State, SmlTryCount}
    requires p.result == r.result && p.state == r.state && (SmlTryCount in mask ==> p.tries == r.tries)
    ensures Assignments(mask, r, k) == Assignments(mask, p, k)
    ensures ReservedFirst(mask, r, k) == ReservedFirst(mask, p, k)
  {
    if k > 0 {
      ReportAssignments(mask, r, p, k - 1);
      var c := ORDER[k - 1];
      if c in mask {
        assert c == State || c == Result || c == SmlTryCount;
      }
    }
  }

  /** For a single number the bound is one character longer, and it is exact. */
  lemma ProfileFitsIff(p: Package)
    ensures Fits({ProfileId}, p) <==> |Decimal(p.profileId)| <= 7 && |Decimal(p.pkgId)| <= 8
  {
    hide Decimal;
    OnlyProfile(p, |ORDER|);
    var text := Assignment(ProfileId, p);
    assert [text][..0] == [] && Terminated([]) == "";
    assert Terminated([text]) == text + ",";
    assert |text| == 10 + |Decimal(p.profileId)| && |SQL_WHERE| == 13;
  }

  lemma {:induction false} OnlyProfile(p: Package, k: nat)
    requires k <= |ORDER|
    ensures Assignments({ProfileId}, p, k) == if k > 2 then [Assignment(ProfileId, p)] else []
    ensures ReservedFirst({ProfileId}, p, k) == if k > 2 then 17 else 0
  {
    if k > 0 {
      OnlyProfile(p, k - 1);
      var c := ORDER[k - 1];
      assert c in {ProfileId} <==> k == 3;
      var before := Assignments({ProfileId}, p, k - 1);
      assert k == 3 ==> before + [Assignment(c, p)] == [Assignment(c, p)];
      assert before + [] == before;
    }
  }
}
