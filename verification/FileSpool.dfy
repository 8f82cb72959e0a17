/** The agent's spool as files: one file per punch, named by a padded number so that
    sorting the names gives the order of queueing. The directory refines the queue of
    punches that the protocol works with. */
module FileSpool {
  import opened Receipts
  import opened PunchProtocol

  datatype Content = Readable(punch: Request) | Damaged

  // ---------------------------------------------------------------------------
  // The order of names
  // ---------------------------------------------------------------------------

  /** `a` and `b` agree up to position `k`, and there `a` ends or has the smaller character. */
  predicate LessAt(a: string, b: string, k: nat) {
    k <= |a| && k < |b| && a[..k] == b[..k] && (k == |a| || a[k] < b[k])
  }

  /** The order in which `sort` puts file names. */
  ghost predicate Less(a: string, b: string) {
    exists k: nat :: LessAt(a, b, k)
  }

  predicate Precedes(a: string, b: string)
    ensures Precedes(a, b) <==> Less(a, b)
  {
    LessByHead(a, b);
    b != "" && (a == "" || a[0] < b[0] || (a[0] == b[0] && Precedes(a[1..], b[1..])))
  }

  lemma LessByHead(a: string, b: string)
    ensures Less(a, b) <==> b != "" && (a == "" || a[0] < b[0] || (a[0] == b[0] && Less(a[1..], b[1..])))
  {
    if a != "" && b != "" && a[0] == b[0] {
      if k: nat :| LessAt(a, b, k) {
        LessAtTail(a, b, k);
      }
      if k: nat :| LessAt(a[1..], b[1..], k) {
        LessAtWhole(a, b, k);
      }
    } else if b != "" {
      assert LessAt(a, b, 0) || Less(a, b) || b[0] < a[0];
    }
  }

  lemma LessAtTail(a: string, b: string, k: nat)
    requires a != "" && b != "" && a[0] == b[0] && LessAt(a, b, k)
    ensures 0 < k && LessAt(a[1..], b[1..], k - 1)
  {
    assert a[1..][..k - 1] == a[..k][1..] && b[1..][..k - 1] == b[..k][1..];
  }

  lemma LessAtWhole(a: string, b: string, k: nat)
    requires a != "" && b != "" && a[0] == b[0] && LessAt(a[1..], b[1..], k)
    ensures LessAt(a, b, k + 1)
  {
    assert a[..k + 1] == [a[0]] + a[1..][..k] && b[..k + 1] == [b[0]] + b[1..][..k];
  }

  lemma LessIsTransitive(a: string, b: string, c: string)
    requires Less(a, b) && Less(b, c)
    ensures Less(a, c)
  {
    var j: nat :| LessAt(a, b, j);
    var k: nat :| LessAt(b, c, k);
    if j < k {
      assert b[..k][..j] == b[..j] && c[..k][..j] == c[..j];
      assert b[j] == b[..k][j] == c[..k][j] == c[j];
      assert LessAt(a, c, j);
    } else {
      assert a[..j][..k] == a[..k] && b[..j][..k] == b[..k];
      assert k < j ==> a[k] == a[..j][k] == b[..j][k] == b[k];
      assert LessAt(a, c, k);
    }
  }

  lemma {:induction false} LessIsTotal(a: string, b: string)
    ensures a == b || Less(a, b) || Less(b, a)
    ensures !(Less(a, b) && Less(b, a)) && !Less(a, a)
  {
    LessByHead(a, b);
    LessByHead(b, a);
    if a != "" && b != "" {
      LessIsTotal(a[1..], b[1..]);
      if a[1..] == b[1..] && a[0] == b[0] { assert a == [a[0]] + a[1..] && b == [b[0]] + b[1..]; }
    }
  }

  // ---------------------------------------------------------------------------
  // Numbers in names
  // ---------------------------------------------------------------------------

  const WIDTH := 12
  const LIMIT := 1_000_000_000_000

  function Power(width: nat): (p: nat)
    ensures p > 0
  {
    if width == 0 then 1 else 10 * Power(width - 1)
  }

  function Digit(d: nat): char
    requires d < 10
  {
    '0' + d as char
  }

  /** `String(n).padStart(width, '0')`: at least `width` digits, and more when `n` needs them. */
  function Padded(n: nat, width: nat): string
    decreases n, width
  {
    if width == 0 then (if n == 0 then "" else Padded(n / 10, 0) + [Digit(n % 10)])
    else if n == 0 then Padded(0, width - 1) + ['0']
    else Padded(n / 10, width - 1) + [Digit(n % 10)]
  }

  function DigitValue(c: char): nat {
    if '0' <= c <= '9' then c as int - '0' as int else 0
  }

  /** `Number(text)` for a text of digits. */
  function ValueOf(text: string): nat {
    if text == "" then 0 else 10 * ValueOf(text[..|text| - 1]) + DigitValue(text[|text| - 1])
  }

  lemma {:induction false} PaddedRoundTrip(n: nat, width: nat)
    requires n < Power(width)
    ensures |Padded(n, width)| == width && ValueOf(Padded(n, width)) == n
    decreases width
  {
    if width > 0 {
      PaddedRoundTrip(n / 10, width - 1);
      var text := Padded(n, width);
      assert text == Padded(n / 10, width - 1) + [Digit(n % 10)];
      assert text[..|text| - 1] == Padded(n / 10, width - 1);
    }
  }

  lemma PaddedSplits(n: nat, width: nat)
    requires 0 < width && n < Power(width)
    ensures n / 10 < Power(width - 1) && |Padded(n / 10, width - 1)| == width - 1
    ensures Padded(n, width) == Padded(n / 10, width - 1) + [Digit(n % 10)]
  {
    PaddedRoundTrip(n / 10, width - 1);
  }

  lemma {:induction false} PaddedKeepsOrder(n: nat, m: nat, width: nat) returns (k: nat)
    requires n < m < Power(width)
    ensures k < width && |Padded(n, width)| == |Padded(m, width)| == width
    ensures Padded(n, width)[..k] == Padded(m, width)[..k] && Padded(n, width)[k] < Padded(m, width)[k]
    decreases width
  {
    assert width > 0;
    hide Padded, Power;
    PaddedSplits(n, width);
    PaddedSplits(m, width);
    var a, b := Padded(n / 10, width - 1), Padded(m / 10, width - 1);
    if n / 10 < m / 10 {
      k := PaddedKeepsOrder(n / 10, m / 10, width - 1);
      assert (a + [Digit(n % 10)])[..k] == a[..k] && (b + [Digit(m % 10)])[..k] == b[..k];
    } else {
      k := width - 1;
    }
  }

  // ---------------------------------------------------------------------------
  // Names
  // ---------------------------------------------------------------------------

  const SUFFIX := ".json"
  const UNREADABLE := ".unreadable"

  predicate EndsWith(text: string, suffix: string) {
    |suffix| <= |text| && text[|text| - |suffix|..] == suffix
  }

  predicate IsPending(name: string) {
    EndsWith(name, SUFFIX)
  }

  function FileName(number: nat, requestId: string): string {
    Padded(number, WIDTH) + "-" + requestId + SUFFIX
  }

  function PartialName(name: string): string {
    "." + name + ".partial"
  }

  /** The number at the front of a name; `slice(0, 12)` of a shorter name is the whole name. */
  function NumberOf(name: string): nat {
    ValueOf(if |name| < WIDTH then name else name[..WIDTH])
  }

  lemma NamesSortByNumber(n: nat, m: nat, r: string, s: string)
    requires n < m < LIMIT
    ensures Less(FileName(n, r), FileName(m, s))
  {
    hide Padded, Power;
    LimitIsPower();
    var k := PaddedKeepsOrder(n, m, WIDTH);
    var a, b := FileName(n, r), FileName(m, s);
    assert a[..k] == Padded(n, WIDTH)[..k] && b[..k] == Padded(m, WIDTH)[..k];
    assert a[k] == Padded(n, WIDTH)[k] && b[k] == Padded(m, WIDTH)[k];
    assert LessAt(a, b, k);
  }

  lemma NameKeepsItsNumber(n: nat, r: string)
    requires n < LIMIT
    ensures NumberOf(FileName(n, r)) == n && IsPending(FileName(n, r))
  {
    hide Padded, Power;
    LimitIsPower();
    PaddedRoundTrip(n, WIDTH);
    assert FileName(n, r)[..WIDTH] == Padded(n, WIDTH);
  }

  lemma {:induction false} PaddedHasNoHyphen(n: nat, width: nat)
    ensures forall i :: 0 <= i < |Padded(n, width)| ==> Padded(n, width)[i] != '-'
    decreases n, width
  {
    if width == 0 {
      if n > 0 { PaddedHasNoHyphen(n / 10, 0); }
    } else if n == 0 {
      PaddedHasNoHyphen(0, width - 1);
    } else {
      PaddedHasNoHyphen(n / 10, width - 1);
    }
  }

  /** The rule of `remove` for the id `s` also picks out the punch with the id `r`. */
  predicate AlsoNames(s: string, r: string) {
    r == s || EndsWith(r, "-" + s)
  }

  /** The end of a name picks out a punch exactly when it has that id, or one that ends in a hyphen and that id. */
  lemma SuffixNamesThePunch(n: nat, r: string, s: string)
    ensures EndsWith(FileName(n, r), "-" + s + SUFFIX) <==> AlsoNames(s, r)
  {
    var front := Padded(n, WIDTH);
    var name, suffix := FileName(n, r), "-" + s + SUFFIX;
    PaddedHasNoHyphen(n, WIDTH);
    hide Padded;
    assert name == front + "-" + r + SUFFIX;
    var k := |name| - |suffix|;
    if 0 <= k {
      var tail := name[k..];
      assert |suffix| == |s| + 6 && |tail| == |s| + 6;
      if |r| < |s| {
        assert tail[0] == front[k] && suffix[0] == '-';
      } else {
        assert |front| + |r| == |s| + k;
        assert tail == name[k..|name| - 5] + SUFFIX && suffix == ("-" + s) + SUFFIX;
        assert tail == suffix <==> name[k..|name| - 5] == "-" + s by {
          SameFront(name[k..|name| - 5], "-" + s, SUFFIX);
        }
        if |r| == |s| {
          assert name[k..|name| - 5] == "-" + r;
          assert ("-" + r)[1..] == r && ("-" + s)[1..] == s;
        } else {
          assert name[k..|name| - 5] == r[|r| - |"-" + s|..];
        }
      }
    } else {
      assert |front| + |r| < |s|;
    }
  }

  lemma SameFront(a: string, b: string, tail: string)
    ensures a + tail == b + tail <==> a == b
  {
    if a + tail == b + tail {
      assert |a| == |b|;
      assert (a + tail)[..|a|] == a && (b + tail)[..|b|] == b;
    }
  }

  /** Ids of one length, as generated ids are, name only themselves. */
  lemma SameLengthNamesOne(r: string, s: string)
    requires |r| == |s|
    ensures AlsoNames(s, r) <==> r == s
  {
  }

  lemma LimitIsPower()
    ensures Power(WIDTH) == LIMIT
  {
    assert Power(4) == 10_000;
    assert Power(8) == 10_000 * Power(4);
    assert Power(12) == 10_000 * Power(8);
  }

  lemma PaddedAtPower(width: nat)
    requires width > 0
    ensures Padded(Power(width), width) == Padded(Power(width - 1), width - 1) + ['0']
    ensures Padded(Power(width) - 1, width) == Padded(Power(width - 1) - 1, width - 1) + ['9']
  {
    var p := Power(width - 1);
    assert 10 * p / 10 == p && 10 * p % 10 == 0 && (10 * p - 1) / 10 == p - 1 && (10 * p - 1) % 10 == 9;
  }

  lemma {:induction false} FirstDigits(width: nat)
    ensures Padded(Power(width), width) != "" && Padded(Power(width), width)[0] == '1'
    ensures width > 0 ==> Padded(Power(width) - 1, width) != "" && Padded(Power(width) - 1, width)[0] == '9'
  {
    if width == 0 {
      assert Padded(1, 0) == Padded(0, 0) + [Digit(1)];
    } else {
      FirstDigits(width - 1);
      hide Padded;
      PaddedAtPower(width);
    }
  }

  /** The thirteenth digit breaks the order: the numbering holds exactly below the limit. */
  lemma NumberingBreaksAtTheLimit(r: string, s: string)
    ensures Less(FileName(LIMIT, r), FileName(LIMIT - 1, s))
  {
    hide Padded, Power;
    LimitIsPower();
    FirstDigits(WIDTH);
    var a, b := FileName(LIMIT, r), FileName(LIMIT - 1, s);
    assert a[0] == Padded(LIMIT, WIDTH)[0] && b[0] == Padded(LIMIT - 1, WIDTH)[0];
    assert LessAt(a, b, 0);
  }

  // ---------------------------------------------------------------------------
  // Listing a directory
  // ---------------------------------------------------------------------------

  ghost predicate IsSorted(names: seq<string>) {
    forall i, j :: 0 <= i < j < |names| ==> Less(names[i], names[j])
  }

  /** What `entriesOf` returns: the pending names in order. */
  ghost predicate IsListing(files: map<string, Content>, names: seq<string>) {
    IsSorted(names) && forall name :: name in names <==> name in files && IsPending(name)
  }

  lemma {:induction false} SortedNamesAreUnique(xs: seq<string>, ys: seq<string>)
    requires IsSorted(xs) && IsSorted(ys) && forall name :: name in xs <==> name in ys
    ensures xs == ys
  {
    assert |ys| > 0 ==> ys[0] in ys;
    if xs != [] {
      assert xs[0] in ys;
      var x, y := xs[0], ys[0];
      assert y in xs;
      FirstIsLeast(xs, y);
      FirstIsLeast(ys, x);
      LessIsTotal(x, y);
      assert xs == [x] + xs[1..] && ys == [x] + ys[1..];
      forall name ensures name in xs[1..] <==> name in ys[1..] {
        LessIsTotal(x, x);
        assert name in xs[1..] <==> name in xs && name != x;
        assert name in ys[1..] <==> name in ys && name != x;
      }
      SortedNamesAreUnique(xs[1..], ys[1..]);
    }
  }

  lemma FirstIsLeast(xs: seq<string>, x: string)
    requires IsSorted(xs) && x in xs
    ensures x == xs[0] || Less(xs[0], x)
  {
  }

  function Inserted(names: seq<string>, name: string): (r: seq<string>) {
    if names == [] || Precedes(name, names[0]) then [name] + names
    else [names[0]] + Inserted(names[1..], name)
  }

  lemma {:induction false} InsertedIsSorted(names: seq<string>, name: string)
    requires IsSorted(names) && name !in names
    ensures IsSorted(Inserted(names, name)) && forall x :: x in Inserted(names, name) <==> x == name || x in names
  {
    if names == [] {
    } else if Precedes(name, names[0]) {
      forall i | 0 < i < |names| ensures Less(name, names[i]) { LessIsTransitive(name, names[0], names[i]); }
    } else {
      LessIsTotal(name, names[0]);
      var rest := Inserted(names[1..], name);
      InsertedIsSorted(names[1..], name);
      assert names == [names[0]] + names[1..];
      forall i | 0 <= i < |rest| ensures Less(names[0], rest[i]) {
        assert rest[i] in rest;
      }
    }
  }

  // ---------------------------------------------------------------------------
  // The queue a directory stands for
  // ---------------------------------------------------------------------------

  datatype Entry = Entry(number: nat, punch: Request)

  function NameOf(e: Entry): string {
    FileName(e.number, e.punch.requestId)
  }

  function Names(entries: seq<Entry>): seq<string> {
    seq(|entries|, i requires 0 <= i < |entries| => NameOf(entries[i]))
  }

  function Punches(entries: seq<Entry>): seq<Request> {
    seq(|entries|, i requires 0 <= i < |entries| => entries[i].punch)
  }

  predicate NumbersIncrease(entries: seq<Entry>) {
    && (forall i, j :: 0 <= i < j < |entries| ==> entries[i].number < entries[j].number)
    && (forall i :: 0 <= i < |entries| ==> entries[i].number < LIMIT)
  }

  /** The pending files are these, each with its punch in it unless the file is damaged. */
  ghost predicate Holds(files: map<string, Content>, entries: seq<Entry>) {
    && NumbersIncrease(entries)
    && (forall name :: name in files && IsPending(name) <==> name in Names(entries))
    && (forall i :: 0 <= i < |entries| ==>
          NameOf(entries[i]) in files && files[NameOf(entries[i])] in {Readable(entries[i].punch), Damaged})
  }

  /** Listing the directory gives the queue in the order in which it was filled. */
  lemma ListingIsTheQueue(files: map<string, Content>, names: seq<string>, entries: seq<Entry>)
    requires Holds(files, entries) && IsListing(files, names)
    ensures names == Names(entries) && |names| == |entries|
  {
    forall i, j | 0 <= i < j < |entries| ensures Less(Names(entries)[i], Names(entries)[j]) {
      NamesSortByNumber(entries[i].number, entries[j].number, entries[i].punch.requestId, entries[j].punch.requestId);
    }
    SortedNamesAreUnique(names, Names(entries));
  }

  function NextNumber(entries: seq<Entry>): nat {
    if entries == [] then 1 else entries[|entries| - 1].number + 1
  }

  lemma LastNameGivesTheNumber(files: map<string, Content>, names: seq<string>, entries: seq<Entry>)
    requires Holds(files, entries) && IsListing(files, names)
    ensures names == Names(entries) && |names| == |entries|
    ensures (if names == [] then 0 else NumberOf(names[|names| - 1])) + 1 == NextNumber(entries)
  {
    ListingIsTheQueue(files, names, entries);
    hide FileName, NumberOf;
    if entries != [] {
      NameKeepsItsNumber(entries[|entries| - 1].number, entries[|entries| - 1].punch.requestId);
    }
  }

  lemma AddKeepsOrder(files: map<string, Content>, entries: seq<Entry>, punch: Request)
    requires Holds(files, entries) && NextNumber(entries) < LIMIT
    ensures var e := Entry(NextNumber(entries), punch);
            Holds(files[NameOf(e) := Readable(punch)], entries + [e])
  {
    hide FileName, IsPending;
    var e := Entry(NextNumber(entries), punch);
    var files', entries' := files[NameOf(e) := Readable(punch)], entries + [e];
    NameKeepsItsNumber(e.number, punch.requestId);
    assert Names(entries') == Names(entries) + [NameOf(e)];
    forall i | 0 <= i < |entries| ensures NameOf(entries[i]) != NameOf(e) {
      NameKeepsItsNumber(entries[i].number, entries[i].punch.requestId);
    }
  }

  // ---------------------------------------------------------------------------
  // Taking entries out
  // ---------------------------------------------------------------------------

  function Keep(entries: seq<Entry>, ids: set<string>): seq<Entry> {
    if entries == [] then []
    else (if entries[0].punch.requestId in ids then [] else [entries[0]]) + Keep(entries[1..], ids)
  }

  lemma {:induction false} KeepIsExcept(entries: seq<Entry>, ids: set<string>)
    ensures Punches(Keep(entries, ids)) == Except(Punches(entries), ids)
  {
    if entries != [] {
      KeepIsExcept(entries[1..], ids);
      assert Punches(entries)[1..] == Punches(entries[1..]);
      var first := if entries[0].punch.requestId in ids then [] else [entries[0]];
      assert Punches(first + Keep(entries[1..], ids)) == Punches(first) + Punches(Keep(entries[1..], ids));
    }
  }

  lemma {:induction false} KeepKeepsTheRest(entries: seq<Entry>, ids: set<string>)
    ensures forall e :: e in Keep(entries, ids) <==> e in entries && e.punch.requestId !in ids
  {
    if entries != [] {
      KeepKeepsTheRest(entries[1..], ids);
      assert entries == [entries[0]] + entries[1..];
    }
  }

  lemma {:induction false} KeepKeepsNumbers(entries: seq<Entry>, ids: set<string>)
    requires NumbersIncrease(entries)
    ensures NumbersIncrease(Keep(entries, ids))
  {
    if entries != [] {
      var rest := Keep(entries[1..], ids);
      KeepKeepsNumbers(entries[1..], ids);
      forall i | 0 <= i < |rest| ensures entries[0].number < rest[i].number {
        KeepKeepsTheRest(entries[1..], ids);
        assert rest[i] in entries[1..];
      }
    }
  }

  /** The ids that the rule of `remove` picks out. */
  function IdsNamed(entries: seq<Entry>, requestId: string): set<string> {
    set i | 0 <= i < |entries| && AlsoNames(requestId, entries[i].punch.requestId) :: entries[i].punch.requestId
  }

  predicate NamesNoOther(entries: seq<Entry>, requestId: string) {
    forall i :: 0 <= i < |entries| && AlsoNames(requestId, entries[i].punch.requestId) ==>
      entries[i].punch.requestId == requestId
  }

  lemma {:induction false} KeepDependsOnTheIds(entries: seq<Entry>, ids: set<string>, others: set<string>)
    requires forall i :: 0 <= i < |entries| ==>
               (entries[i].punch.requestId in ids <==> entries[i].punch.requestId in others)
    ensures Keep(entries, ids) == Keep(entries, others)
  {
    if entries != [] {
      assert forall i :: 0 <= i < |entries[1..]| ==> entries[1..][i] == entries[i + 1];
      KeepDependsOnTheIds(entries[1..], ids, others);
    }
  }

  /** A directory that lost exactly the files of `ids` holds the queue without them. */
  lemma LosingFilesKeepsTheRest(
      files: map<string, Content>, files': map<string, Content>, entries: seq<Entry>, ids: set<string>)
    requires Holds(files, entries)
    requires forall name :: name in files' && IsPending(name) ==> name in files && files'[name] == files[name]
    requires forall i :: 0 <= i < |entries| ==> (NameOf(entries[i]) in files' <==> entries[i].punch.requestId !in ids)
    ensures Holds(files', Keep(entries, ids))
  {
    hide FileName, IsPending, Keep;
    var rest := Keep(entries, ids);
    KeepKeepsTheRest(entries, ids);
    KeepKeepsNumbers(entries, ids);
    forall i | 0 <= i < |rest|
      ensures && NameOf(rest[i]) in files' && IsPending(NameOf(rest[i]))
              && files'[NameOf(rest[i])] in {Readable(rest[i].punch), Damaged}
    {
      assert rest[i] in rest;
      var k :| 0 <= k < |entries| && entries[k] == rest[i];
      NameKeepsItsNumber(entries[k].number, entries[k].punch.requestId);
    }
    forall name | name in files' && IsPending(name) ensures name in Names(rest) {
      var k :| 0 <= k < |entries| && Names(entries)[k] == name;
      assert entries[k] in rest;
      var i :| 0 <= i < |rest| && rest[i] == entries[k];
      assert Names(rest)[i] == name;
    }
  }

  // ---------------------------------------------------------------------------
  // The spool itself
  // ---------------------------------------------------------------------------

  class Directory {
    var files: map<string, Content>

    constructor ()
      ensures files == map[] && Holds(files, [])
    {
      files := map[];
    }

    /** `readdir` gives the names in any order; the pending ones come back sorted. */
    method Entries() returns (names: seq<string>)
      ensures IsListing(files, names)
    {
      names := [];
      var rest := files.Keys;
      while rest != {}
        invariant rest <= files.Keys
        invariant IsSorted(names)
        invariant forall name :: name in names <==> name in files && name !in rest && IsPending(name)
      {
        var name :| name in rest;
        rest := rest - {name};
        if IsPending(name) {
          InsertedIsSorted(names, name);
          names := Inserted(names, name);
        }
      }
    }

    /** Queues a punch behind all others. A stop before the rename leaves the queue as it was. */
    method Add(punch: Request, stopped: bool, ghost entries: seq<Entry>)
      requires Holds(files, entries)
      modifies this
      ensures stopped ==> Holds(files, entries)
      ensures !stopped && NextNumber(entries) < LIMIT ==> Holds(files, entries + [Entry(NextNumber(entries), punch)])
    {
      var names := Entries();
      LastNameGivesTheNumber(files, names, entries);
      hide Holds, IsPending, FileName, PartialName, NumberOf;
      var last := if names == [] then 0 else NumberOf(names[|names| - 1]);
      var name := FileName(last + 1, punch.requestId);
      PartialIsNotPending(name);
      ghost var before := files;
      files := files[PartialName(name) := Readable(punch)];
      SamePendingFiles(before, files, entries);
      if stopped { return; }
      files := files - {PartialName(name)};
      SamePendingFiles(before, files, entries);
      if NextNumber(entries) < LIMIT { AddKeepsOrder(files, entries, punch); }
      files := files[name := Readable(punch)];
    }

    /** The readable punches in order; damaged files keep their content under a name that is not pending. */
    method List(ghost entries: seq<Entry>, ghost damaged: set<string>) returns (punches: seq<Request>)
      requires Holds(files, entries) && DamageIs(files, entries, damaged)
      modifies this
      ensures punches == Except(Punches(entries), damaged)
      ensures Holds(files, Keep(entries, damaged))
      ensures forall i :: 0 <= i < |entries| && entries[i].punch.requestId in damaged ==>
                NameOf(entries[i]) + UNREADABLE in files
    {
      var names := Entries();
      ListingIsTheQueue(files, names, entries);
      ghost var before := files;
      punches := [];
      ListedNone(before, names, entries, damaged);
      for i := 0 to |names|
        invariant files == Listed(before, names, i)
        invariant punches == Punches(Keep(entries[..i], damaged))
      {
        hide *;
        ListedOne(before, names, entries, damaged, i);
        var name := names[i];
        match files[name] {
          case Readable(punch) => punches := punches + [punch];
          case Damaged => files := (files - {name})[name + UNREADABLE := Damaged];
        }
      }
      ListedAll(before, entries, damaged);
    }

    /** Takes out the punch with this id, and every other one whose id ends in a hyphen and this id. */
    method Remove(requestId: string, ghost entries: seq<Entry>)
      requires Holds(files, entries)
      modifies this
      ensures Holds(files, Keep(entries, IdsNamed(entries, requestId)))
      ensures NamesNoOther(entries, requestId) ==> Holds(files, Keep(entries, {requestId}))
    {
      hide *;
      var names := Entries();
      ghost var before := files;
      ListingIsTheQueue(before, names, entries);
      var suffix := "-" + requestId + SUFFIX;
      RemovedNone(before, names, suffix);
      for i := 0 to |names|
        invariant files == Removed(before, names, suffix, i)
      {
        RemovedOne(before, names, suffix, i);
        if EndsWith(names[i], suffix) { files := files - {names[i]}; }
      }
      RemovedAll(before, entries, requestId);
      if NamesNoOther(entries, requestId) { KeptAlone(entries, requestId); }
    }
  }

  // ---------------------------------------------------------------------------
  // What the loops of `list` and `remove` do
  // ---------------------------------------------------------------------------

  /** The directory after `remove` has looked at the first `i` names. */
  function Removed(files: map<string, Content>, names: seq<string>, suffix: string, i: nat): map<string, Content>
    requires i <= |names|
  {
    if i == 0 then files
    else
      var sofar := Removed(files, names, suffix, i - 1);
      if EndsWith(names[i - 1], suffix) then sofar - {names[i - 1]} else sofar
  }

  lemma RemovedNone(files: map<string, Content>, names: seq<string>, suffix: string)
    ensures Removed(files, names, suffix, 0) == files
  {
  }

  lemma RemovedOne(files: map<string, Content>, names: seq<string>, suffix: string, i: nat)
    requires i < |names|
    ensures var sofar := Removed(files, names, suffix, i);
            Removed(files, names, suffix, i + 1) == if EndsWith(names[i], suffix) then sofar - {names[i]} else sofar
  {
    hide EndsWith;
  }

  lemma KeptAlone(entries: seq<Entry>, requestId: string)
    requires NamesNoOther(entries, requestId)
    ensures Keep(entries, IdsNamed(entries, requestId)) == Keep(entries, {requestId})
  {
    hide Keep;
    KeepDependsOnTheIds(entries, IdsNamed(entries, requestId), {requestId});
  }

  lemma {:induction false} RemovedFiles(files: map<string, Content>, names: seq<string>, suffix: string, i: nat)
    requires i <= |names|
    ensures Removed(files, names, suffix, i) == files - set k | 0 <= k < i && EndsWith(names[k], suffix) :: names[k]
  {
    hide EndsWith;
    if i > 0 {
      RemovedFiles(files, names, suffix, i - 1);
    }
  }

  lemma RemovedAll(files: map<string, Content>, entries: seq<Entry>, requestId: string)
    requires Holds(files, entries)
    ensures Holds(Removed(files, Names(entries), "-" + requestId + SUFFIX, |entries|),
                  Keep(entries, IdsNamed(entries, requestId)))
  {
    var names, suffix, ids := Names(entries), "-" + requestId + SUFFIX, IdsNamed(entries, requestId);
    var files' := Removed(files, names, suffix, |entries|);
    RemovedFiles(files, names, suffix, |entries|);
    hide Removed, EndsWith, IsPending, FileName, Keep, AlsoNames;
    forall i | 0 <= i < |entries| ensures names[i] in files' <==> entries[i].punch.requestId !in ids {
      forall k | 0 <= k < |entries|
        ensures EndsWith(names[k], suffix) <==> AlsoNames(requestId, entries[k].punch.requestId)
      {
        SuffixNamesThePunch(entries[k].number, entries[k].punch.requestId, requestId);
      }
      NamesAreDistinct(entries, i);
    }
    LosingFilesKeepsTheRest(files, files', entries, ids);
  }

  lemma NamesAreDistinct(entries: seq<Entry>, i: nat)
    requires NumbersIncrease(entries) && i < |entries|
    ensures forall k :: 0 <= k < |entries| && NameOf(entries[k]) == NameOf(entries[i]) ==> k == i
  {
    hide FileName;
    NameKeepsItsNumber(entries[i].number, entries[i].punch.requestId);
    forall k | 0 <= k < |entries| && NameOf(entries[k]) == NameOf(entries[i]) ensures k == i {
      NameKeepsItsNumber(entries[k].number, entries[k].punch.requestId);
    }
  }

  /** The directory after `list` has looked at the first `i` names. */
  function Listed(files: map<string, Content>, names: seq<string>, i: nat): map<string, Content>
    requires i <= |names|
  {
    if i == 0 then files
    else
      var sofar, name := Listed(files, names, i - 1), names[i - 1];
      if name in files && files[name] == Damaged then (sofar - {name})[name + UNREADABLE := Damaged] else sofar
  }

  /** Looking at names sets the damaged ones aside and touches no other pending file. */
  lemma {:induction false} ListedFiles(files: map<string, Content>, names: seq<string>, i: nat)
    requires i <= |names| && forall k :: 0 <= k < |names| ==> IsPending(names[k])
    ensures var files' := Listed(files, names, i);
            && (forall name :: IsPending(name) ==>
                  (name in files' <==> name in files && !(name in names[..i] && files[name] == Damaged)))
            && (forall name :: IsPending(name) && name in files' ==> files'[name] == files[name])
            && (forall k :: 0 <= k < i && names[k] in files && files[names[k]] == Damaged ==>
               names[k] + UNREADABLE in files')
  {
    hide IsPending;
    if i > 0 {
      ListedFiles(files, names, i - 1);
      forall k | 0 <= k < i ensures !IsPending(names[k] + UNREADABLE) { PartialIsNotPending(names[k]); }
      assert names[..i] == names[..i - 1] + [names[i - 1]];
    }
  }

  lemma {:induction false} KeepSnoc(entries: seq<Entry>, ids: set<string>, i: nat)
    requires i < |entries|
    ensures Keep(entries[..i + 1], ids) ==
            Keep(entries[..i], ids) + if entries[i].punch.requestId in ids then [] else [entries[i]]
  {
    if i == 0 {
      assert entries[..1] == [entries[0]];
    } else {
      KeepSnoc(entries[1..], ids, i - 1);
      assert entries[..i + 1][1..] == entries[1..][..i] && entries[..i][1..] == entries[1..][..i - 1];
    }
  }

  predicate DamageIs(files: map<string, Content>, entries: seq<Entry>, damaged: set<string>) {
    forall i :: 0 <= i < |entries| ==>
      NameOf(entries[i]) in files && (files[NameOf(entries[i])] == Damaged <==> entries[i].punch.requestId in damaged)
  }

  lemma ListedNone(files: map<string, Content>, names: seq<string>, entries: seq<Entry>, damaged: set<string>)
    ensures Listed(files, names, 0) == files && Punches(Keep(entries[..0], damaged)) == []
  {
  }

  lemma ListedOne(files: map<string, Content>, names: seq<string>, entries: seq<Entry>, damaged: set<string>, i: nat)
    requires Holds(files, entries) && DamageIs(files, entries, damaged) && names == Names(entries) && i < |names|
    ensures var (before, name) := (Listed(files, names, i), names[i]);
            && i < |entries| && name in before
            && Listed(files, names, i + 1) ==
               (if before[name] == Damaged then (before - {name})[name + UNREADABLE := Damaged] else before)
            && Punches(Keep(entries[..i + 1], damaged)) ==
               Punches(Keep(entries[..i], damaged)) + if before[name] == Damaged then [] else [before[name].punch]
  {
    hide IsPending, FileName, Keep;
    forall k | 0 <= k < |names| ensures IsPending(names[k]) {
      assert names[k] in Names(entries);
    }
    assert names[i] !in names[..i] by { NamesAreDistinct(entries, i); }
    ListedFiles(files, names, i);
    KeepSnoc(entries, damaged, i);
  }

  lemma ListedAll(files: map<string, Content>, entries: seq<Entry>, damaged: set<string>)
    requires Holds(files, entries) && DamageIs(files, entries, damaged)
    ensures var files' := Listed(files, Names(entries), |entries|);
            && Holds(files', Keep(entries, damaged))
            && (forall i :: 0 <= i < |entries| && entries[i].punch.requestId in damaged ==>
               NameOf(entries[i]) + UNREADABLE in files')
    ensures Punches(Keep(entries[..|entries|], damaged)) == Except(Punches(entries), damaged)
  {
    hide IsPending, FileName, Keep;
    var names := Names(entries);
    var files' := Listed(files, names, |entries|);
    forall k | 0 <= k < |names| ensures IsPending(names[k]) {
      assert names[k] in Names(entries);
    }
    ListedFiles(files, names, |entries|);
    assert names[..|entries|] == names && entries[..|entries|] == entries;
    forall i | 0 <= i < |entries| ensures NameOf(entries[i]) in files' <==> entries[i].punch.requestId !in damaged {
      assert names[i] in names;
    }
    forall i | 0 <= i < |entries| && entries[i].punch.requestId in damaged
      ensures NameOf(entries[i]) + UNREADABLE in files'
    {
      assert files[names[i]] == Damaged;
    }
    LosingFilesKeepsTheRest(files, files', entries, damaged);
    KeepIsExcept(entries, damaged);
  }

  lemma PartialIsNotPending(name: string)
    ensures !IsPending(PartialName(name)) && !IsPending(name + UNREADABLE)
  {
    if IsPending(PartialName(name)) { PendingEndsInN(PartialName(name)); }
    if IsPending(name + UNREADABLE) { PendingEndsInN(name + UNREADABLE); }
  }

  lemma PendingEndsInN(name: string)
    requires IsPending(name)
    ensures name[|name| - 1] == 'n'
  {
    assert name[|name| - |SUFFIX|..][4] == SUFFIX[4];
  }

  lemma SamePendingFiles(files: map<string, Content>, files': map<string, Content>, entries: seq<Entry>)
    requires Holds(files, entries)
    requires forall name :: IsPending(name) ==> (name in files <==> name in files')
    requires forall name :: IsPending(name) && name in files ==> files[name] == files'[name]
    ensures Holds(files', entries)
  {
    hide FileName, IsPending;
    forall i | 0 <= i < |entries| ensures IsPending(NameOf(entries[i])) {
      assert Names(entries)[i] in Names(entries);
    }
  }
}
