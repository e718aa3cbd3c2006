/** Which date folders the three-level walk finds under an anchor, and which it should.

    Object keys are split at '/': "a/b//c" is ["a", "b", "", "c"], and an object whose key ends
    in '/' has an empty last segment. A folder path is its segments followed by one more '/'. */
module DateFolders {
  import opened Calendar
  import opened Wrappers

  type Name = s: seq<string> | |s| > 0 witness [""]

  datatype DateFolder = DateFolder(date: Date, path: Name)

  /** Dropping trailing slashes. */
  function Strip(f: Name): Name {
    if |f| > 1 && f[|f| - 1] == "" then Strip(f[..|f| - 1]) else f
  }

  predicate Digits(s: string) {
    forall i :: 0 <= i < |s| ==> '0' <= s[i] <= '9'
  }

  function Decimal(s: string): nat
    requires Digits(s)
  {
    if s == "" then 0 else Decimal(s[..|s| - 1]) * 10 + (s[|s| - 1] - '0') as nat
  }

  function Number(s: string, width: nat): Option<nat> {
    if |s| == width && Digits(s) then Some(Decimal(s)) else None
  }

  /** `_parse_segment`: the last segment once trailing slashes are gone. */
  function ParseSegment(f: Name, width: nat): Option<nat> {
    Number(Strip(f)[|Strip(f)| - 1], width)
  }

  /** Some object is in the folder `f` or below. */
  predicate Holds(keys: set<Name>, f: Name) {
    exists k :: k in keys && f < k
  }

  /** Some key has an empty segment right after `f`: a folder marker or a doubled slash. */
  predicate EmptyUnder(keys: set<Name>, f: Name) {
    exists k :: k in keys && f + [""] <= k
  }

  /** `_child_folders`: the entries of a listing that end in '/'. The listing of "p/" also holds
      the object named "p/" itself. */
  function Children(keys: set<Name>, f: Name): set<Name> {
    var p := Strip(f);
    (set k: Name | k in keys && p < k && |k| > |p| + 1 :: k[..|p| + 1]) + if p + [""] in keys then {p} else {}
  }

  /** What the innermost loop appends for one month folder. */
  predicate InMonth(keys: set<Name>, monthPath: Name, year: nat, month: nat, f: DateFolder) {
    && f.path in Children(keys, monthPath)
    && ParseSegment(f.path, 2).Some?
    && f.date == Date(year, month, ParseSegment(f.path, 2).value)
    && ValidDate(f.date)
  }

  predicate InYear(keys: set<Name>, yearPath: Name, year: nat, f: DateFolder) {
    exists m :: m in Children(keys, yearPath) && ParseSegment(m, 2).Some?
             && InMonth(keys, m, year, ParseSegment(m, 2).value, f)
  }

  /** The folders that the walk from the anchor appends. */
  predicate Listed(keys: set<Name>, anchor: Name, f: DateFolder) {
    exists y :: y in Children(keys, anchor) && ParseSegment(y, 4).Some?
             && InYear(keys, y, ParseSegment(y, 4).value, f)
  }

  /** A YYYY/MM/DD path under `a` with its date. */
  predicate IsDatePath(a: Name, path: Name, date: Date) {
    && |path| == |a| + 3 && a < path
    && Number(path[|a|], 4) == Some(date.year)
    && Number(path[|a| + 1], 2) == Some(date.month)
    && Number(path[|a| + 2], 2) == Some(date.day)
    && ValidDate(date)
  }

  /** What the walk is for: the valid date folders under the anchor that hold an object. */
  predicate Proper(keys: set<Name>, a: Name, f: DateFolder) {
    IsDatePath(a, f.path, f.date) && Holds(keys, f.path)
  }

  /** The date an object's key stands under, if it stands under a date folder at all. */
  ghost predicate KeyDated(a: Name, k: Name, date: Date) {
    |k| > |a| + 3 && IsDatePath(a, k[..|a| + 3], date)
  }

  ghost predicate Undated(a: Name, k: Name) {
    forall d :: !KeyDated(a, k, d)
  }

  /** A key is undated when one of its three segments under the anchor cannot be part of a date. */
  lemma MisshapenIsUndated(a: Name, k: Name)
    requires a < k
    requires || (|k| > |a| && Number(k[|a|], 4).None?)
             || (|k| > |a| + 2 && Number(k[|a| + 2], 2).None?)
    ensures Undated(a, k)
  {
    forall d
      ensures !KeyDated(a, k, d)
    {
      if |k| > |a| + 3 {
        var p := k[..|a| + 3];
        assert p[|a|] == k[|a|] && p[|a| + 2] == k[|a| + 2];
      }
    }
  }

  /** Some month folder has an empty segment below: the walk reads its month as a day too. */
  ghost predicate MonthMisread(keys: set<Name>, a: Name) {
    exists y, m :: Number(y, 4).Some? && Number(m, 2).Some? && EmptyUnder(keys, a + [y] + [m])
                && ValidDate(Date(Number(y, 4).value, Number(m, 2).value, 1))
  }

  /** The anchor is itself named like a year and an empty segment follows it: the walk takes
      the level below for months. */
  ghost predicate AnchorMisread(keys: set<Name>, a: Name) {
    && Number(a[|a| - 1], 4).Some? && EmptyUnder(keys, a)
    && exists m :: Number(m, 2).Some? && MonthOfAnchor(keys, a, Number(a[|a| - 1], 4).value, m)
  }

  ghost predicate MonthOfAnchor(keys: set<Name>, a: Name, year: nat, m: string)
    requires Number(m, 2).Some?
  {
    || (EmptyUnder(keys, a + [m]) && ValidDate(Date(year, Number(m, 2).value, 1)))
    || exists d :: Number(d, 2).Some? && Holds(keys, a + [m] + [d])
                && ValidDate(Date(year, Number(m, 2).value, Number(d, 2).value))
  }

  ghost predicate Regular(keys: set<Name>, a: Name) {
    !MonthMisread(keys, a) && !AnchorMisread(keys, a)
  }

  lemma {:induction false} StripIsDone(f: Name)
    ensures Strip(Strip(f)) == Strip(f)
  {
    if |f| > 1 && f[|f| - 1] == "" {
      StripIsDone(f[..|f| - 1]);
    }
  }

  /** A child is one segment longer and holds an object, or is the folder's own marker. */
  lemma ChildIff(keys: set<Name>, f: Name, g: Name)
    ensures g in Children(keys, f) <==>
      || (|g| == |Strip(f)| + 1 && Strip(f) < g && Holds(keys, g))
      || (g == Strip(f) && Strip(f) + [""] in keys)
  {
    var p := Strip(f);
    if |g| == |p| + 1 && p < g && Holds(keys, g) {
      var k :| k in keys && g < k;
      assert k[..|p| + 1] == g;
      assert p < k;
    }
  }

  /** How a child parses: by its own segment, or, if that is empty, by its parent's. */
  lemma ChildParses(keys: set<Name>, f: Name, g: Name, width: nat)
    requires g in Children(keys, f)
    ensures var p := Strip(f);
      if |g| == |p| + 1 && g[|p|] != "" then
        Strip(g) == g && g == p + [g[|p|]] && ParseSegment(g, width) == Number(g[|p|], width) && Holds(keys, g)
      else
        Strip(g) == p && ParseSegment(g, width) == Number(p[|p| - 1], width) && EmptyUnder(keys, p)
  {
    var p := Strip(f);
    StripIsDone(f);
    ChildIff(keys, f, g);
    if |g| == |p| + 1 {
      assert g == p + [g[|p|]];
      assert g[..|p|] == p;
      if g[|p|] == "" {
        var k :| k in keys && g < k;
        assert p + [""] <= k;
      }
    }
  }

  /** The child that an empty segment makes of its own folder, with a key behind it. */
  lemma EmptyChild(keys: set<Name>, p: Name, width: nat) returns (g: Name, k: Name)
    requires EmptyUnder(keys, p) && Strip(p) == p
    ensures g in Children(keys, p) && Strip(g) == p && (g == p || g == p + [""])
    ensures ParseSegment(g, width) == Number(p[|p| - 1], width)
    ensures k in keys && p + [""] <= k && g < k
  {
    k :| k in keys && p + [""] <= k;
    if k == p + [""] {
      g := p;
    } else {
      g := p + [""];
      assert g < k;
      assert g[..|p|] == p;
    }
    ChildIff(keys, p, g);
  }

  lemma NamedChild(keys: set<Name>, f: Name, c: string, width: nat)
    requires Holds(keys, Strip(f) + [c]) && Number(c, width).Some? && width > 0
    ensures var g := Strip(f) + [c];
      g in Children(keys, f) && Strip(g) == g && ParseSegment(g, width) == Number(c, width)
  {
    ChildIff(keys, f, Strip(f) + [c]);
  }

  lemma HoldsAbove(keys: set<Name>, f: Name, c: string)
    requires Holds(keys, f + [c]) || EmptyUnder(keys, f + [c])
    ensures Holds(keys, f)
  {
    var k :| k in keys && f + [c] <= k;
    assert f < k;
  }

  lemma EmptyHolds(keys: set<Name>, f: Name)
    requires EmptyUnder(keys, f)
    ensures Holds(keys, f)
  {
    var k :| k in keys && f + [""] <= k;
    assert f < k;
  }

  /** The walk gets to every month folder that holds an object. */
  lemma MonthIsReached(keys: set<Name>, anchor: Name, y: string, m: string, f: DateFolder)
    requires Number(y, 4).Some? && Number(m, 2).Some? && Holds(keys, Strip(anchor) + [y] + [m])
    requires InMonth(keys, Strip(anchor) + [y] + [m], Number(y, 4).value, Number(m, 2).value, f)
    ensures Listed(keys, anchor, f)
  {
    var a := Strip(anchor);
    HoldsAbove(keys, a + [y], m);
    NamedChild(keys, anchor, y, 4);
    NamedChild(keys, a + [y], m, 2);
    assert InYear(keys, a + [y], Number(y, 4).value, f);
  }

  /** Nothing is overlooked, whatever else the bucket holds. */
  lemma ProperIsListed(keys: set<Name>, anchor: Name, f: DateFolder)
    requires Proper(keys, Strip(anchor), f)
    ensures Listed(keys, anchor, f)
  {
    var a, n := Strip(anchor), |Strip(anchor)|;
    var y, m, d := f.path[n], f.path[n + 1], f.path[n + 2];
    assert f.path == a + [y] + [m] + [d];
    HoldsAbove(keys, a + [y] + [m], d);
    NamedChild(keys, a + [y] + [m], d, 2);
    MonthIsReached(keys, anchor, y, m, f);
  }

  /** A day that the walk reads under a well-named month, if no month is misread. */
  lemma DayUnderMonth(keys: set<Name>, month: Name, y: nat, m: nat, f: DateFolder)
    requires InMonth(keys, month, y, m, f) && Strip(month) == month
    requires Number(month[|month| - 1], 2) == Some(m)
    ensures || EmptyUnder(keys, month)
            || (|f.path| == |month| + 1 && month < f.path && Holds(keys, f.path)
                && Number(f.path[|month|], 2) == Some(f.date.day))
  {
    ChildParses(keys, month, f.path, 2);
  }

  /** A month folder always has a name of its own: a year's name is too long for one. */
  lemma MonthIsNamed(keys: set<Name>, y: Name, m: Name)
    requires ParseSegment(y, 4).Some? && m in Children(keys, y) && ParseSegment(m, 2).Some?
    ensures var p := Strip(y);
      && |m| == |p| + 1 && m == p + [m[|p|]] && Strip(m) == m
      && ParseSegment(m, 2) == Number(m[|p|], 2)
  {
    ChildParses(keys, y, m, 2);
  }

  /** A day reached through named folders, if no month is misread. */
  lemma NamedWalk(keys: set<Name>, a: Name, y: string, m: string, f: DateFolder)
    requires !MonthMisread(keys, a) && Number(y, 4).Some? && Number(m, 2).Some?
    requires InMonth(keys, a + [y] + [m], Number(y, 4).value, Number(m, 2).value, f)
    ensures Proper(keys, a, f) && a + [y] == f.path[..|a| + 1] && a + [y] + [m] == f.path[..|a| + 2]
  {
    var month: Name := a + [y] + [m];
    assert Strip(month) == month;
    DayUnderMonth(keys, month, Number(y, 4).value, Number(m, 2).value, f);
    assert ValidDate(Date(Number(y, 4).value, Number(m, 2).value, 1));
    assert !EmptyUnder(keys, month);
    assert f.path[|a|] == y && f.path[|a| + 1] == m;
    assert f.path[..|a| + 2] == month && f.path[..|a| + 1] == a + [y];
  }

  /** The anchor cannot have been read as a year. */
  lemma YearMustBeNamed(keys: set<Name>, a: Name, y: Name, m: Name, f: DateFolder)
    requires Strip(y) == a && EmptyUnder(keys, a) && Number(a[|a| - 1], 4).Some?
    requires |m| == |a| + 1 && m == a + [m[|a|]] && Number(m[|a|], 2).Some? && Strip(m) == m
    requires InMonth(keys, m, Number(a[|a| - 1], 4).value, Number(m[|a|], 2).value, f)
    ensures AnchorMisread(keys, a)
  {
    MonthUnderAnchor(keys, a, Number(a[|a| - 1], 4).value, m[|a|], f);
  }

  lemma MonthUnderAnchor(keys: set<Name>, a: Name, year: nat, month: string, f: DateFolder)
    requires Number(month, 2).Some? && Strip(a + [month]) == a + [month]
    requires InMonth(keys, a + [month], year, Number(month, 2).value, f)
    ensures MonthOfAnchor(keys, a, year, month)
  {
    var m := a + [month];
    DayUnderMonth(keys, m, year, Number(month, 2).value, f);
    if EmptyUnder(keys, m) {
      assert ValidDate(Date(year, Number(month, 2).value, 1));
    } else {
      var d := f.path[|m|];
      assert f.path == a + [month] + [d];
      assert Holds(keys, a + [month] + [d]);
    }
  }

  lemma UnnamedYear(keys: set<Name>, a: Name, y: Name, m: Name, f: DateFolder)
    requires Strip(y) == a && EmptyUnder(keys, a)
    requires ParseSegment(y, 4).Some? && ParseSegment(y, 4) == Number(a[|a| - 1], 4)
    requires m in Children(keys, y) && ParseSegment(m, 2).Some?
    requires InMonth(keys, m, ParseSegment(y, 4).value, ParseSegment(m, 2).value, f)
    ensures AnchorMisread(keys, a)
  {
    MonthIsNamed(keys, y, m);
    YearMustBeNamed(keys, a, y, m, f);
  }

  lemma NamedYear(keys: set<Name>, anchor: Name, y: Name)
    requires y in Children(keys, anchor) && |y| == |Strip(anchor)| + 1 && y[|Strip(anchor)|] != ""
    ensures var a := Strip(anchor);
      y == a + [y[|a|]] && Strip(y) == y && ParseSegment(y, 4) == Number(y[|a|], 4)
  {
    ChildParses(keys, anchor, y, 4);
  }

  lemma EmptyYear(keys: set<Name>, anchor: Name, y: Name)
    requires y in Children(keys, anchor) && (|y| != |Strip(anchor)| + 1 || y[|Strip(anchor)|] == "")
    ensures var a := Strip(anchor);
      Strip(y) == a && ParseSegment(y, 4) == Number(a[|a| - 1], 4) && EmptyUnder(keys, a)
  {
    ChildParses(keys, anchor, y, 4);
  }

  lemma YearIsNamed(keys: set<Name>, anchor: Name, y: Name, m: Name, f: DateFolder)
    requires y in Children(keys, anchor) && ParseSegment(y, 4).Some?
    requires m in Children(keys, y) && ParseSegment(m, 2).Some?
    requires InMonth(keys, m, ParseSegment(y, 4).value, ParseSegment(m, 2).value, f)
    ensures var a := Strip(anchor);
      || AnchorMisread(keys, a)
      || (|y| == |a| + 1 && y == a + [y[|a|]] && Strip(y) == y && ParseSegment(y, 4) == Number(y[|a|], 4))
  {
    var a := Strip(anchor);
    if |y| == |a| + 1 && y[|a|] != "" {
      NamedYear(keys, anchor, y);
    } else {
      EmptyYear(keys, anchor, y);
      UnnamedYear(keys, a, y, m, f);
    }
  }

  /** On a regular bucket every listed folder is proper, and its path names the folders the
      walk came through. */
  lemma WalkIsProper(keys: set<Name>, anchor: Name, y: Name, m: Name, f: DateFolder)
    requires Regular(keys, Strip(anchor))
    requires y in Children(keys, anchor) && ParseSegment(y, 4).Some?
    requires m in Children(keys, y) && ParseSegment(m, 2).Some?
    requires InMonth(keys, m, ParseSegment(y, 4).value, ParseSegment(m, 2).value, f)
    ensures Proper(keys, Strip(anchor), f)
    ensures y == f.path[..|Strip(anchor)| + 1] && m == f.path[..|Strip(anchor)| + 2]
  {
    var a, n := Strip(anchor), |Strip(anchor)|;
    YearIsNamed(keys, anchor, y, m, f);
    MonthIsNamed(keys, y, m);
    NamedWalk(keys, a, y[n], m[n + 1], f);
  }

  lemma RegularIsExact(keys: set<Name>, anchor: Name, f: DateFolder)
    requires Regular(keys, Strip(anchor)) && Listed(keys, anchor, f)
    ensures Proper(keys, Strip(anchor), f)
  {
    var y :| y in Children(keys, anchor) && ParseSegment(y, 4).Some?
          && InYear(keys, y, ParseSegment(y, 4).value, f);
    var m :| m in Children(keys, y) && ParseSegment(m, 2).Some?
          && InMonth(keys, m, ParseSegment(y, 4).value, ParseSegment(m, 2).value, f);
    WalkIsProper(keys, anchor, y, m, f);
  }

  /** A month read as its own day, and a key that lies under it. */
  lemma MisreadDay(keys: set<Name>, month: Name, y: nat, m: nat) returns (f: DateFolder, k: Name)
    requires EmptyUnder(keys, month) && Strip(month) == month
    requires Number(month[|month| - 1], 2) == Some(m) && ValidDate(Date(y, m, 1))
    ensures InMonth(keys, month, y, m, f) && (f.path == month || f.path == month + [""])
    ensures k in keys && month + [""] <= k && f.path < k
  {
    var g;
    g, k := EmptyChild(keys, month, 2);
    f := DateFolder(Date(y, m, m), g);
  }

  /** A listed folder with a key under it that stands under no date. */
  ghost predicate Misleads(keys: set<Name>, anchor: Name, f: DateFolder, k: Name) {
    Listed(keys, anchor, f) && ValidDate(f.date) && k in keys && f.path < k && Undated(Strip(anchor), k)
  }

  /** No date starts with a month folder and an empty segment. */
  lemma EmptyDayIsUndated(a: Name, month: Name, k: Name)
    requires |month| == |a| + 2 && a < month && month + [""] <= k
    ensures Undated(a, k)
  {
    assert k[|a| + 2] == "";
    MisshapenIsUndated(a, k);
  }

  lemma NamedMonthStays(a: Name, y: string, m: string)
    requires Number(m, 2).Some?
    ensures var month := a + [y] + [m];
      Strip(month) == month && month[|month| - 1] == m && |month| == |a| + 2 && a < month
  {
  }

  lemma MisreadMonth(keys: set<Name>, anchor: Name, y: string, m: string) returns (f: DateFolder, k: Name)
    requires Number(y, 4).Some? && Number(m, 2).Some? && EmptyUnder(keys, Strip(anchor) + [y] + [m])
    requires ValidDate(Date(Number(y, 4).value, Number(m, 2).value, 1))
    ensures Misleads(keys, anchor, f, k)
  {
    var month: Name := Strip(anchor) + [y] + [m];
    NamedMonthStays(Strip(anchor), y, m);
    f, k := MisreadDay(keys, month, Number(y, 4).value, Number(m, 2).value);
    EmptyHolds(keys, month);
    assert Listed(keys, anchor, f) by {
      MonthIsReached(keys, anchor, y, m, f);
    }
    assert Undated(Strip(anchor), k) by {
      EmptyDayIsUndated(Strip(anchor), month, k);
    }
  }

  lemma MonthMisleads(keys: set<Name>, anchor: Name) returns (f: DateFolder, k: Name)
    requires MonthMisread(keys, Strip(anchor))
    ensures Misleads(keys, anchor, f, k)
  {
    var a := Strip(anchor);
    var y, m :| Number(y, 4).Some? && Number(m, 2).Some? && EmptyUnder(keys, a + [y] + [m])
             && ValidDate(Date(Number(y, 4).value, Number(m, 2).value, 1));
    f, k := MisreadMonth(keys, anchor, y, m);
  }

  lemma NamedDay(keys: set<Name>, p: Name, year: nat, month: nat, d: string) returns (f: DateFolder, k: Name)
    requires Strip(p) == p && Number(d, 2).Some? && Holds(keys, p + [d])
    requires ValidDate(Date(year, month, Number(d, 2).value))
    ensures InMonth(keys, p, year, month, f) && Holds(keys, p)
    ensures k in keys && p < k && f.path < k
  {
    HoldsAbove(keys, p, d);
    NamedChild(keys, p, d, 2);
    f := DateFolder(Date(year, month, Number(d, 2).value), p + [d]);
    k :| k in keys && p + [d] < k;
  }

  /** The day found under a month that stands where a year should, and a key under it. */
  lemma AnchorDay(keys: set<Name>, a: Name, year: nat, m: string) returns (f: DateFolder, k: Name)
    requires Number(m, 2).Some? && MonthOfAnchor(keys, a, year, m)
    ensures InMonth(keys, a + [m], year, Number(m, 2).value, f) && Holds(keys, a + [m])
    ensures k in keys && a + [m] < k && f.path < k
  {
    if EmptyUnder(keys, a + [m]) && ValidDate(Date(year, Number(m, 2).value, 1)) {
      EmptyHolds(keys, a + [m]);
      f, k := MisreadDay(keys, a + [m], year, Number(m, 2).value);
    } else {
      var d :| Number(d, 2).Some? && Holds(keys, a + [m] + [d])
            && ValidDate(Date(year, Number(m, 2).value, Number(d, 2).value));
      f, k := NamedDay(keys, a + [m], year, Number(m, 2).value, d);
    }
  }

  lemma AnchorMisleads(keys: set<Name>, anchor: Name) returns (f: DateFolder, k: Name)
    requires AnchorMisread(keys, Strip(anchor))
    ensures Misleads(keys, anchor, f, k)
  {
    var a := Strip(anchor);
    StripIsDone(anchor);
    var year := Number(a[|a| - 1], 4).value;
    var m :| Number(m, 2).Some? && MonthOfAnchor(keys, a, year, m);
    f, k := AnchorDay(keys, a, year, m);
    var y, _ := EmptyChild(keys, a, 4);
    NamedChild(keys, y, m, 2);
    assert InYear(keys, y, year, f);
    assert y in Children(keys, anchor);
    assert k[|a|] == m;
    MisshapenIsUndated(a, k);
  }

  /** An irregular bucket has a folder that is listed wrongly and a key that goes with it. */
  lemma IrregularMisleads(keys: set<Name>, anchor: Name) returns (f: DateFolder, k: Name)
    requires !Regular(keys, Strip(anchor))
    ensures Misleads(keys, anchor, f, k)
  {
    if MonthMisread(keys, Strip(anchor)) {
      f, k := MonthMisleads(keys, anchor);
    } else {
      f, k := AnchorMisleads(keys, anchor);
    }
  }

  lemma MisleadingIsNotProper(keys: set<Name>, anchor: Name, f: DateFolder, k: Name)
    requires Misleads(keys, anchor, f, k)
    ensures !Proper(keys, Strip(anchor), f)
  {
    if IsDatePath(Strip(anchor), f.path, f.date) {
      assert f.path == k[..|Strip(anchor)| + 3];
      assert KeyDated(Strip(anchor), k, f.date);
    }
  }

  /** A marker object at a month folder is taken for the day with the month's number. */
  lemma MarkerReadsAsDay(keys: set<Name>, anchor: Name, y: string, m: string)
    requires Number(y, 4).Some? && Number(m, 2).Some? && Strip(anchor) + [y] + [m] + [""] in keys
    requires ValidDate(Date(Number(y, 4).value, Number(m, 2).value, 1))
    ensures MonthMisread(keys, Strip(anchor))
    ensures Listed(keys, anchor, DateFolder(Date(Number(y, 4).value, Number(m, 2).value, Number(m, 2).value),
                                            Strip(anchor) + [y] + [m]))
  {
    var a := Strip(anchor);
    var month: Name := a + [y] + [m];
    var f := DateFolder(Date(Number(y, 4).value, Number(m, 2).value, Number(m, 2).value), month);
    assert EmptyUnder(keys, month);
    EmptyHolds(keys, month);
    ChildIff(keys, month, month);
    MonthIsReached(keys, anchor, y, m, f);
  }

  /** The walk finds precisely the date folders that hold an object, exactly when no empty
      segment follows a month folder, nor an anchor named like a year. */
  lemma ListedIff(keys: set<Name>, anchor: Name)
    ensures (forall f :: Listed(keys, anchor, f) <==> Proper(keys, Strip(anchor), f))
        <==> Regular(keys, Strip(anchor))
  {
    if Regular(keys, Strip(anchor)) {
      forall f
        ensures Listed(keys, anchor, f) <==> Proper(keys, Strip(anchor), f)
      {
        if Listed(keys, anchor, f) {
          RegularIsExact(keys, anchor, f);
        }
        if Proper(keys, Strip(anchor), f) {
          ProperIsListed(keys, anchor, f);
        }
      }
    } else {
      var f, k := IrregularMisleads(keys, anchor);
      MisleadingIsNotProper(keys, anchor, f, k);
    }
  }
}
