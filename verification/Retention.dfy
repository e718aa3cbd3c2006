/** The date-folder walk and the retention delete over a bucket of object keys. */
module Retention {
  import opened Calendar
  import opened DateFolders
  import opened Sequences
  import opened Wrappers

  datatype Error = OverflowError

  datatype DeleteOlderResult = DeleteOlderResult(folders: seq<DateFolder>, errors: set<Name>)

  /** Dates of found folders are valid ones. */
  predicate Dated(s: seq<DateFolder>) {
    forall i :: 0 <= i < |s| ==> ValidDate(s[i].date)
  }

  function DateKey(f: DateFolder): int {
    if ValidDate(f.date) then Ordinal(f.date) else 0
  }

  predicate ByDate(s: seq<DateFolder>) {
    OrderedBy(s, DateKey)
  }

  predicate FromMonth(keys: set<Name>, m: Name, year: nat, f: DateFolder) {
    ParseSegment(m, 2).Some? && InMonth(keys, m, year, ParseSegment(m, 2).value, f)
  }

  predicate FromYear(keys: set<Name>, y: Name, f: DateFolder) {
    ParseSegment(y, 4).Some? && InYear(keys, y, ParseSegment(y, 4).value, f)
  }

  /** What a loop over the children `done` has found, `from` telling what each one yields. */
  ghost predicate Gathered(found: seq<DateFolder>, done: seq<Name>, from: (Name, DateFolder) -> bool) {
    forall f :: f in found <==> exists n :: n in done && from(n, f)
  }

  /** No folder comes from two children. */
  ghost predicate Apart(children: set<Name>, from: (Name, DateFolder) -> bool) {
    forall n, n', f :: n in children && n' in children && from(n, f) && from(n', f) ==> n == n'
  }

  lemma GatherMore(found: seq<DateFolder>, done: seq<Name>, n: Name, more: seq<DateFolder>,
                   from: (Name, DateFolder) -> bool)
    requires Gathered(found, done, from) && forall f :: f in more <==> from(n, f)
    ensures Gathered(found + more, done + [n], from)
  {
    forall f
      ensures f in found + more <==> exists n' :: n' in done + [n] && from(n', f)
    {
      if f in more {
        assert n in done + [n] && from(n, f);
      } else if f in found {
        var n' :| n' in done && from(n', f);
        assert n' in done + [n];
      }
    }
  }

  lemma GatherApart(found: seq<DateFolder>, done: seq<Name>, n: Name, more: seq<DateFolder>,
                    children: set<Name>, from: (Name, DateFolder) -> bool)
    requires Gathered(found, done, from) && forall f :: f in more <==> from(n, f)
    requires Apart(children, from) && n in children && n !in done && forall d :: d in done ==> d in children
    requires Distinct(found) && Distinct(more)
    ensures Distinct(found + more)
  {
    forall f | f in found
      ensures f !in more
    {
      var d :| d in done && from(d, f);
    }
    forall i, j | 0 <= i < j < |found + more|
      ensures (found + more)[i] != (found + more)[j]
    {
      if i < |found| <= j {
        assert found[i] in found && more[j - |found|] in more;
      }
    }
  }

  function MonthsFrom(keys: set<Name>, year: nat): (Name, DateFolder) -> bool {
    (m: Name, f: DateFolder) => FromMonth(keys, m, year, f)
  }

  function YearsFrom(keys: set<Name>): (Name, DateFolder) -> bool {
    (y: Name, f: DateFolder) => FromYear(keys, y, f)
  }

  lemma StepGathers(paths: seq<Name>, i: nat, children: set<Name>, found: seq<DateFolder>, more: seq<DateFolder>,
                    from: (Name, DateFolder) -> bool)
    requires i < |paths| && Distinct(paths) && forall n :: n in paths ==> n in children
    requires Gathered(found, paths[..i], from) && (forall f :: f in more <==> from(paths[i], f))
    ensures Gathered(found + more, paths[..i + 1], from)
    ensures Apart(children, from) && Distinct(found) && Distinct(more) ==> Distinct(found + more)
  {
    assert paths[..i + 1] == paths[..i] + [paths[i]];
    assert paths[i] in paths && paths[i] !in paths[..i];
    GatherMore(found, paths[..i], paths[i], more, from);
    if Apart(children, from) && Distinct(found) && Distinct(more) {
      GatherApart(found, paths[..i], paths[i], more, children, from);
    }
  }

  lemma YearGathered(keys: set<Name>, yearPath: Name, year: nat, paths: seq<Name>, folders: seq<DateFolder>)
    requires forall g :: g in paths <==> g in Children(keys, yearPath)
    requires Gathered(folders, paths, MonthsFrom(keys, year))
    ensures forall f :: f in folders <==> InYear(keys, yearPath, year, f)
  {
    forall f
      ensures f in folders <==> InYear(keys, yearPath, year, f)
    {
      if f in folders {
        var m :| m in paths && MonthsFrom(keys, year)(m, f);
        assert m in Children(keys, yearPath);
      }
      if InYear(keys, yearPath, year, f) {
        var m :| m in Children(keys, yearPath) && ParseSegment(m, 2).Some?
              && InMonth(keys, m, year, ParseSegment(m, 2).value, f);
        assert m in paths && MonthsFrom(keys, year)(m, f);
      }
    }
  }

  lemma AllGathered(keys: set<Name>, anchor: Name, paths: seq<Name>, found: seq<DateFolder>)
    requires forall g :: g in paths <==> g in Children(keys, anchor)
    requires Gathered(found, paths, YearsFrom(keys))
    ensures (forall f :: f in found <==> Listed(keys, anchor, f)) && Dated(found)
  {
    forall f
      ensures f in found <==> Listed(keys, anchor, f)
      ensures f in found ==> ValidDate(f.date)
    {
      if f in found {
        var y :| y in paths && YearsFrom(keys)(y, f);
        assert y in Children(keys, anchor);
        ListedIsDated(keys, y, ParseSegment(y, 4).value, f);
      }
      if Listed(keys, anchor, f) {
        var y :| y in Children(keys, anchor) && ParseSegment(y, 4).Some?
              && InYear(keys, y, ParseSegment(y, 4).value, f);
        assert y in paths && YearsFrom(keys)(y, f);
      }
    }
    assert forall i :: 0 <= i < |found| ==> found[i] in found;
  }

  lemma ListedIsDated(keys: set<Name>, yearPath: Name, year: nat, f: DateFolder)
    requires InYear(keys, yearPath, year, f)
    ensures ValidDate(f.date)
  {
  }

  lemma RegularMonthsApart(keys: set<Name>, anchor: Name, y: Name)
    requires Regular(keys, Strip(anchor)) && y in Children(keys, anchor) && ParseSegment(y, 4).Some?
    ensures Apart(Children(keys, y), MonthsFrom(keys, ParseSegment(y, 4).value))
  {
    var year := ParseSegment(y, 4).value;
    forall m, m', f |
      m in Children(keys, y) && m' in Children(keys, y) && FromMonth(keys, m, year, f) && FromMonth(keys, m', year, f)
      ensures m == m'
    {
      WalkIsProper(keys, anchor, y, m, f);
      WalkIsProper(keys, anchor, y, m', f);
    }
  }

  lemma YearOfFolder(keys: set<Name>, anchor: Name, y: Name, f: DateFolder)
    requires Regular(keys, Strip(anchor)) && y in Children(keys, anchor) && FromYear(keys, y, f)
    ensures |f.path| > |Strip(anchor)| && y == f.path[..|Strip(anchor)| + 1]
  {
    var m :| m in Children(keys, y) && ParseSegment(m, 2).Some?
          && InMonth(keys, m, ParseSegment(y, 4).value, ParseSegment(m, 2).value, f);
    WalkIsProper(keys, anchor, y, m, f);
  }

  lemma RegularYearsApart(keys: set<Name>, anchor: Name)
    requires Regular(keys, Strip(anchor))
    ensures Apart(Children(keys, anchor), YearsFrom(keys))
  {
    forall y, y', f |
      y in Children(keys, anchor) && y' in Children(keys, anchor) && FromYear(keys, y, f) && FromYear(keys, y', f)
      ensures y == y'
    {
      YearOfFolder(keys, anchor, y, f);
      YearOfFolder(keys, anchor, y', f);
    }
  }

  /** What `delete_older_than` asks to remove. */
  ghost predicate Doomed(keys: set<Name>, anchor: Name, cutoff: int, k: Name) {
    exists f :: Listed(keys, anchor, f) && ValidDate(f.date) && Ordinal(f.date) < cutoff && k in keys && f.path < k
  }

  predicate Under(folders: seq<DateFolder>, k: Name) {
    exists f :: f in folders && f.path < k
  }

  /** The last calendar day the `date` type can hold. */
  const LAST_DAY: Date := Date(MAX_YEAR, 12, 31)

  class Bucket {
    var keys: set<Name>

    constructor (initial: set<Name>)
      ensures keys == initial
    {
      keys := initial;
    }

    /** One listing, in whatever order the server gives it. */
    method ChildFolders(f: Name) returns (s: seq<Name>)
      ensures Distinct(s) && forall g :: g in s <==> g in Children(keys, f)
    {
      var rest := Children(keys, f);
      s := [];
      while rest != {}
        invariant Distinct(s) && forall g :: g in s ==> g !in rest
        invariant forall g :: g in s || g in rest <==> g in Children(keys, f)
        decreases |rest|
      {
        var g :| g in rest;
        rest := rest - {g};
        s := s + [g];
      }
    }

    /** The innermost loop of the walk. */
    method Days(monthPath: Name, year: nat, month: nat) returns (folders: seq<DateFolder>)
      ensures forall f :: f in folders <==> InMonth(keys, monthPath, year, month, f)
      ensures Distinct(folders)
    {
      var paths := ChildFolders(monthPath);
      folders := [];
      for i := 0 to |paths|
        invariant forall f :: f in folders <==> InMonth(keys, monthPath, year, month, f) && f.path in paths[..i]
        invariant Distinct(folders)
      {
        assert paths[i] !in paths[..i];
        assert paths[..i + 1] == paths[..i] + [paths[i]];
        var day := ParseSegment(paths[i], 2);
        if day.Some? && ValidDate(Date(year, month, day.value)) {
          folders := folders + [DateFolder(Date(year, month, day.value), paths[i])];
        }
      }
    }

    method Months(yearPath: Name, year: nat) returns (folders: seq<DateFolder>)
      ensures forall f :: f in folders <==> InYear(keys, yearPath, year, f)
      ensures Apart(Children(keys, yearPath), MonthsFrom(keys, year)) ==> Distinct(folders)
    {
      var paths := ChildFolders(yearPath);
      folders := [];
      ghost var from := MonthsFrom(keys, year);
      for i := 0 to |paths|
        invariant Gathered(folders, paths[..i], from)
        invariant Apart(Children(keys, yearPath), from) ==> Distinct(folders)
      {
        var month := ParseSegment(paths[i], 2);
        var more := [];
        if month.Some? {
          more := Days(paths[i], year, month.value);
        }
        StepGathers(paths, i, Children(keys, yearPath), folders, more, from);
        folders := folders + more;
      }
      assert paths[..|paths|] == paths;
      YearGathered(keys, yearPath, year, paths, folders);
    }

    /** Every date folder the walk finds, sorted by date; each once on a regular bucket. */
    method ListDateFolders(anchor: Name) returns (folders: seq<DateFolder>)
      ensures forall f :: f in folders <==> Listed(keys, anchor, f)
      ensures Dated(folders) && ByDate(folders)
      ensures Regular(keys, Strip(anchor)) ==> Distinct(folders)
    {
      var paths := ChildFolders(anchor);
      var found := [];
      ghost var from := YearsFrom(keys);
      ghost var regular := Regular(keys, Strip(anchor));
      if regular {
        RegularYearsApart(keys, anchor);
      }
      for i := 0 to |paths|
        invariant Gathered(found, paths[..i], from)
        invariant regular ==> Distinct(found)
      {
        var year := ParseSegment(paths[i], 4);
        var more := [];
        if year.Some? {
          more := Months(paths[i], year.value);
          if regular {
            RegularMonthsApart(keys, anchor, paths[i]);
          }
        }
        StepGathers(paths, i, Children(keys, anchor), found, more, from);
        found := found + more;
      }
      assert paths[..|paths|] == paths;
      AllGathered(keys, anchor, paths, found);
      folders := SortBy(found, DateKey);
      SortBySorts(found, DateKey);
      SameMembers(found, folders);
      assert forall i :: 0 <= i < |folders| ==> folders[i] in folders;
    }

    /** The server deletes what it does not refuse. */
    method RemoveObjects(folders: seq<DateFolder>) returns (refused: set<Name>)
      modifies this
      ensures forall k :: k in keys <==> k in old(keys) && (Under(folders, k) ==> k in refused)
      ensures forall k :: k in refused ==> k in old(keys) && Under(folders, k)
    {
      var targets := set k | k in keys && Under(folders, k);
      refused :| refused <= targets;
      keys := keys - (targets - refused);
    }

    /** Removes the objects under every listed folder dated before `today - days`; the server
        may refuse some, which come back as errors. A dry run removes nothing. */
    method DeleteOlderThan(today: Date, days: int, anchor: Name, dryRun: bool)
        returns (r: Result<DeleteOlderResult, Error>)
      requires ValidDate(today)
      modifies this
      ensures var cutoff := Ordinal(today) - days;
        if !(1 <= cutoff <= Ordinal(LAST_DAY)) then r == Err(OverflowError) && keys == old(keys)
        else
          && r.Ok?
          && (forall f :: f in r.value.folders <==> Listed(old(keys), anchor, f) && DateKey(f) < cutoff)
          && ByDate(r.value.folders)
          && (dryRun ==> keys == old(keys) && r.value.errors == {})
          && (!dryRun ==> forall k :: k in keys <==>
               k in old(keys) && (Doomed(old(keys), anchor, cutoff, k) ==> k in r.value.errors))
          && forall k :: k in r.value.errors ==> Doomed(old(keys), anchor, cutoff, k)
    {
      var cutoff := Ordinal(today) - days;
      if !(1 <= cutoff <= Ordinal(LAST_DAY)) {
        return Err(OverflowError);
      }
      var folders := ListDateFolders(anchor);
      var selected := Older(folders, cutoff);
      OlderByDate(folders, cutoff);
      SelectedAre(keys, anchor, cutoff, folders, selected);
      var refused: set<Name> := {};
      if !dryRun && selected != [] {
        refused := RemoveObjects(selected);
      }
      r := Ok(DeleteOlderResult(selected, refused));
    }
  }

  /** The selection, and what lies under it. */
  lemma SelectedAre(keys: set<Name>, anchor: Name, cutoff: int, folders: seq<DateFolder>, selected: seq<DateFolder>)
    requires forall f :: f in folders <==> Listed(keys, anchor, f)
    requires Dated(folders) && selected == Older(folders, cutoff)
    ensures forall f :: f in selected <==> Listed(keys, anchor, f) && DateKey(f) < cutoff
    ensures forall k :: k in keys ==> (Under(selected, k) <==> Doomed(keys, anchor, cutoff, k))
  {
    forall f
      ensures f in selected <==> Listed(keys, anchor, f) && DateKey(f) < cutoff
      ensures f in folders ==> ValidDate(f.date)
    {
      OlderMember(folders, cutoff, f);
    }
    forall k | k in keys
      ensures Under(selected, k) <==> Doomed(keys, anchor, cutoff, k)
    {
      if Under(selected, k) {
        var f :| f in selected && f.path < k;
        assert f in folders;
      }
      if Doomed(keys, anchor, cutoff, k) {
        var f :| Listed(keys, anchor, f) && ValidDate(f.date) && Ordinal(f.date) < cutoff && f.path < k;
        assert f in selected;
      }
    }
  }

  /** The folders before the cutoff, in their order. */
  function Older(folders: seq<DateFolder>, cutoff: int): seq<DateFolder> {
    if folders == [] then []
    else
      var last := folders[|folders| - 1];
      Older(folders[..|folders| - 1], cutoff) + if DateKey(last) < cutoff then [last] else []
  }

  lemma {:induction false} OlderMember(folders: seq<DateFolder>, cutoff: int, f: DateFolder)
    ensures f in Older(folders, cutoff) <==> f in folders && DateKey(f) < cutoff
  {
    if folders != [] {
      var t, last := folders[..|folders| - 1], folders[|folders| - 1];
      OlderMember(t, cutoff, f);
      assert folders == t + [last];
    }
  }

  lemma {:induction false} OlderByDate(folders: seq<DateFolder>, cutoff: int)
    requires ByDate(folders)
    ensures ByDate(Older(folders, cutoff))
  {
    if folders != [] {
      var t, last := folders[..|folders| - 1], folders[|folders| - 1];
      OlderByDate(t, cutoff);
      var o := Older(t, cutoff);
      forall i | 0 <= i < |o|
        ensures DateKey(o[i]) <= DateKey(last)
      {
        OlderMember(t, cutoff, o[i]);
      }
    }
  }

  /** Everything under a date folder before the cutoff goes, whatever else is in the bucket. */
  lemma NothingOldIsKept(keys: set<Name>, anchor: Name, cutoff: int, k: Name, d: Date)
    requires k in keys && KeyDated(Strip(anchor), k, d) && Ordinal(d) < cutoff
    ensures Doomed(keys, anchor, cutoff, k)
  {
    var f := DateFolder(d, k[..|Strip(anchor)| + 3]);
    assert f.path < k;
    ProperIsListed(keys, anchor, f);
  }

  lemma ProperDates(keys: set<Name>, a: Name, f: DateFolder, k: Name)
    requires Proper(keys, a, f) && f.path < k
    ensures KeyDated(a, k, f.date)
  {
    assert f.path == k[..|a| + 3];
  }

  /** On a regular bucket nothing else goes. */
  lemma NothingElseGoes(keys: set<Name>, anchor: Name, cutoff: int, k: Name) returns (d: Date)
    requires Regular(keys, Strip(anchor)) && Doomed(keys, anchor, cutoff, k)
    ensures k in keys && KeyDated(Strip(anchor), k, d) && Ordinal(d) < cutoff
  {
    var f :| Listed(keys, anchor, f) && ValidDate(f.date) && Ordinal(f.date) < cutoff && k in keys && f.path < k;
    assert Proper(keys, Strip(anchor), f) by {
      RegularIsExact(keys, anchor, f);
    }
    ProperDates(keys, Strip(anchor), f, k);
    d := f.date;
  }

  /** Of every key, going and standing under a date before the cutoff are the same. */
  ghost predicate ExactAt(keys: set<Name>, anchor: Name, cutoff: int) {
    forall k :: k in keys ==>
      (Doomed(keys, anchor, cutoff, k) <==> exists d :: KeyDated(Strip(anchor), k, d) && Ordinal(d) < cutoff)
  }

  lemma RegularIsExactAt(keys: set<Name>, anchor: Name, cutoff: int)
    requires Regular(keys, Strip(anchor))
    ensures ExactAt(keys, anchor, cutoff)
  {
    forall k | k in keys
      ensures Doomed(keys, anchor, cutoff, k) <==> exists d :: KeyDated(Strip(anchor), k, d) && Ordinal(d) < cutoff
    {
      if Doomed(keys, anchor, cutoff, k) {
        var d := NothingElseGoes(keys, anchor, cutoff, k);
      }
      if exists d :: KeyDated(Strip(anchor), k, d) && Ordinal(d) < cutoff {
        var d :| KeyDated(Strip(anchor), k, d) && Ordinal(d) < cutoff;
        NothingOldIsKept(keys, anchor, cutoff, k, d);
      }
    }
  }

  /** The retention is exact, for every cutoff and every key, exactly on regular buckets: any
      empty segment after a month folder, and any after an anchor named like a year with dated
      folders below, removes some key that stands under no date at all. */
  lemma RetentionExactIff(keys: set<Name>, anchor: Name)
    ensures (forall cutoff :: ExactAt(keys, anchor, cutoff)) <==> Regular(keys, Strip(anchor))
  {
    if Regular(keys, Strip(anchor)) {
      forall cutoff
        ensures ExactAt(keys, anchor, cutoff)
      {
        RegularIsExactAt(keys, anchor, cutoff);
      }
    } else {
      var f, k := IrregularMisleads(keys, anchor);
      var cutoff := Ordinal(f.date) + 1;
      assert Doomed(keys, anchor, cutoff, k);
      assert !ExactAt(keys, anchor, cutoff);
    }
  }

  /** A marker at a month folder dooms everything under that month once the day with the
      month's own number is before the cutoff. */
  lemma MarkerDoomsTheMonth(keys: set<Name>, anchor: Name, y: string, m: string, cutoff: int, k: Name)
    requires Number(y, 4).Some? && Number(m, 2).Some? && ValidDate(Date(Number(y, 4).value, Number(m, 2).value, 1))
    requires Strip(anchor) + [y] + [m] + [""] in keys
    requires k in keys && Strip(anchor) + [y] + [m] < k
    requires Ordinal(Date(Number(y, 4).value, Number(m, 2).value, Number(m, 2).value)) < cutoff
    ensures !Regular(keys, Strip(anchor)) && Doomed(keys, anchor, cutoff, k)
  {
    MarkerReadsAsDay(keys, anchor, y, m);
    var date := Date(Number(y, 4).value, Number(m, 2).value, Number(m, 2).value);
    assert DateFolder(date, Strip(anchor) + [y] + [m]).path < k;
  }

  /** Two objects: a marker at the June folder and one file of 11 June. With the cutoff on
      11 June itself the file has to stay, and it goes. */
  lemma KeptDayGoes() returns (keys: set<Name>, anchor: Name, k: Name, today: Date)
    ensures ValidDate(today) && k in keys && KeyDated(Strip(anchor), k, today)
    ensures Doomed(keys, anchor, Ordinal(today), k)
  {
    anchor := ["one"];
    var month: Name := anchor + ["2026"] + ["06"];
    k := month + ["11", "x"];
    today := Date(2026, 6, 11);
    keys := {month + [""], k};
    June();
    OrdinalOrders(Date(2026, 6, 6), today);
    assert k[..4] == month + ["11"];
    assert KeyDated(anchor, k, today);
    MarkerDoomsTheMonth(keys, anchor, "2026", "06", Ordinal(today), k);
  }

  lemma June()
    ensures Number("2026", 4) == Some(2026) && Number("06", 2) == Some(6) && Number("11", 2) == Some(11)
  {
    assert "2026"[..3] == "202" && "202"[..2] == "20" && "20"[..1] == "2" && "2"[..0] == "";
    assert "06"[..1] == "0" && "0"[..0] == "" && "11"[..1] == "1" && "1"[..0] == "";
    assert Decimal("2") == 2 && Decimal("20") == 20 && Decimal("202") == 202 && Decimal("2026") == 2026;
    assert Decimal("0") == 0 && Decimal("06") == 6 && Decimal("1") == 1 && Decimal("11") == 11;
  }
}
