/** Directories as text: `name;inum;name;inum`. */
module DirText {
  import opened Options

  datatype Entry = Entry(name: string, inum: nat)

  /** A name and the text of its number, as the scanner finds them. */
  datatype Raw = Raw(name: string, num: string)

  const SEP := ';'

  // ----- numbers -----

  const DIGITS := "0123456789"
  const INUM_LIMIT := 0x1_0000_0000_0000_0000

  predicate IsDigit(c: char) {
    '0' <= c <= '9'
  }

  function DigitValue(c: char): nat
    requires IsDigit(c)
  {
    c as int - '0' as int
  }

  /** filename: a number in decimal. */
  function Decimal(n: nat): (s: string)
    ensures |s| > 0 && forall k :: 0 <= k < |s| ==> IsDigit(s[k])
  {
    if n < 10 then [DIGITS[n]] else Decimal(n / 10) + [DIGITS[n % 10]]
  }

  function Value(s: string): nat
    requires forall k :: 0 <= k < |s| ==> IsDigit(s[k])
  {
    if s == "" then 0 else 10 * Value(s[..|s| - 1]) + DigitValue(s[|s| - 1])
  }

  function LeadingDigits(s: string): (r: string)
    ensures forall k :: 0 <= k < |r| ==> IsDigit(r[k])
  {
    if s == "" || !IsDigit(s[0]) then "" else [s[0]] + LeadingDigits(s[1..])
  }

  /** n2i: the digits at the front; a number that does not fit reads as the largest one. */
  function N2i(s: string): nat {
    var v := Value(LeadingDigits(s));
    if v < INUM_LIMIT then v else INUM_LIMIT - 1
  }

  lemma {:induction false} ValueDecimal(n: nat)
    ensures Value(Decimal(n)) == n
  {
    if n >= 10 {
      ValueDecimal(n / 10);
      assert Decimal(n)[..|Decimal(n)| - 1] == Decimal(n / 10);
    } else {
      assert [DIGITS[n]][..0] == "";
    }
  }

  lemma {:induction false} AllLeading(s: string)
    requires forall k :: 0 <= k < |s| ==> IsDigit(s[k])
    ensures LeadingDigits(s) == s
  {
    if s != "" { AllLeading(s[1..]); }
  }

  /** Reading back a printed number gives the number. */
  lemma NumberRoundTrip(n: nat)
    requires n < INUM_LIMIT
    ensures N2i(Decimal(n)) == n
  {
    ValueDecimal(n);
    AllLeading(Decimal(n));
  }

  lemma DecimalInjective(m: nat, n: nat)
    requires Decimal(m) == Decimal(n)
    ensures m == n
  {
    ValueDecimal(m);
    ValueDecimal(n);
  }

  // ----- printing -----

  function EntryText(e: Entry): string {
    e.name + [SEP] + Decimal(e.inum)
  }

  function Print(es: seq<Entry>): string {
    if es == [] then ""
    else if |es| == 1 then EntryText(es[0])
    else EntryText(es[0]) + [SEP] + Print(es[1..])
  }

  predicate Plain(name: string) {
    SEP !in name
  }

  /** The entries a directory text can hold. */
  predicate Listable(es: seq<Entry>) {
    forall k :: 0 <= k < |es| ==> Plain(es[k].name) && es[k].inum < INUM_LIMIT
  }

  /** nlock_create, mkdir and createlink: the new text of the directory. */
  function Insert(text: string, e: Entry): string {
    if |text| == 0 then EntryText(e) else text + [SEP] + EntryText(e)
  }

  lemma Regroup(x: string, y: string, z: string)
    ensures x + [SEP] + (y + [SEP] + z) == (x + [SEP] + y) + [SEP] + z
  {
  }

  /** Two listings one after the other. */
  lemma {:induction false} PrintConcat(a: seq<Entry>, b: seq<Entry>)
    requires a != [] && b != []
    ensures Print(a + b) == Print(a) + [SEP] + Print(b)
  {
    if |a| == 1 {
      assert a == [a[0]] && (a + b)[1..] == b;
    } else {
      PrintConcat(a[1..], b);
      assert (a + b)[1..] == a[1..] + b;
      Regroup(EntryText(a[0]), Print(a[1..]), Print(b));
    }
  }

  lemma PrintNonEmpty(es: seq<Entry>)
    requires es != []
    ensures Print(es) != ""
  {
  }

  lemma PrintSnoc(es: seq<Entry>, e: Entry)
    ensures Print(es + [e]) == Insert(Print(es), e)
  {
    if es == [] {
      assert [] + [e] == [e];
    } else {
      PrintNonEmpty(es);
      PrintConcat(es, [e]);
    }
  }

  // ----- scanning -----

  /** The place of the first c, or the length. */
  function IndexOf(s: string, c: char): (i: nat)
    ensures i <= |s| && (i < |s| ==> s[i] == c) && forall k :: 0 <= k < i ==> s[k] != c
  {
    if s == "" || s[0] == c then 0 else 1 + IndexOf(s[1..], c)
  }

  lemma IndexAt(s: string, c: char, i: nat)
    requires i <= |s| && (i < |s| ==> s[i] == c) && forall k :: 0 <= k < i ==> s[k] != c
    ensures IndexOf(s, c) == i
  {
    var j := IndexOf(s, c);
    assert j < |s| ==> s[j] == c;
  }

  /** What the scanners make of any text: names and numbers by turns, each up to the next
      separator; a name without a number after it is dropped. */
  function Scan(s: string): seq<Raw>
    decreases |s|, 1
  {
    var i := IndexOf(s, SEP);
    if i == |s| then [] else ScanNumber(s[..i], s[i + 1..])
  }

  function ScanNumber(name: string, s: string): seq<Raw>
    decreases |s|, 2
  {
    var i := IndexOf(s, SEP);
    if s == "" then []
    else if i == |s| then [Raw(name, s)]
    else [Raw(name, s[..i])] + Scan(s[i + 1..])
  }

  function RawOf(e: Entry): Raw {
    Raw(e.name, Decimal(e.inum))
  }

  function Raws(es: seq<Entry>): seq<Raw> {
    seq(|es|, k requires 0 <= k < |es| => RawOf(es[k]))
  }

  function EntryOf(r: Raw): Entry {
    Entry(r.name, N2i(r.num))
  }

  function Entries(rs: seq<Raw>): seq<Entry> {
    seq(|rs|, k requires 0 <= k < |rs| => EntryOf(rs[k]))
  }

  lemma ScanStep(name: string, rest: string)
    requires Plain(name)
    ensures Scan(name + [SEP] + rest) == ScanNumber(name, rest)
  {
    var text := name + [SEP] + rest;
    IndexAt(text, SEP, |name|);
    assert text[..|name|] == name && text[|name| + 1..] == rest;
  }

  lemma NumberStep(name: string, num: string, rest: string)
    requires Plain(num)
    ensures num != "" ==> ScanNumber(name, num) == [Raw(name, num)]
    ensures ScanNumber(name, num + [SEP] + rest) == [Raw(name, num)] + Scan(rest)
  {
    IndexAt(num, SEP, |num|);
    var text := num + [SEP] + rest;
    IndexAt(text, SEP, |num|);
    assert text[..|num|] == num && text[|num| + 1..] == rest;
  }

  lemma ScanFront(e: Entry, rest: string)
    requires Plain(e.name)
    ensures Scan(EntryText(e)) == [RawOf(e)]
    ensures Scan(EntryText(e) + [SEP] + rest) == [RawOf(e)] + Scan(rest)
  {
    var num := Decimal(e.inum);
    NumberStep(e.name, num, rest);
    ScanStep(e.name, num);
    ScanStep(e.name, num + [SEP] + rest);
    Regroup(e.name, num, rest);
  }

  /** Scanning what was printed gives the same entries. */
  lemma {:induction false} ScanPrint(es: seq<Entry>)
    requires Listable(es)
    ensures Scan(Print(es)) == Raws(es)
  {
    if es == [] {
    } else if |es| == 1 {
      ScanFront(es[0], "");
    } else {
      ScanPrint(es[1..]);
      ScanFront(es[0], Print(es[1..]));
    }
  }

  /** The directory codec round trip, numbers included. */
  lemma CodecRoundTrip(es: seq<Entry>)
    requires Listable(es)
    ensures Entries(Scan(Print(es))) == es
  {
    ScanPrint(es);
    forall k | 0 <= k < |es| ensures EntryOf(RawOf(es[k])) == es[k] { NumberRoundTrip(es[k].inum); }
  }

  /** The first entry with the name. */
  function FirstNamed(rs: seq<Raw>, name: string): (r: Option<Raw>)
    ensures r.Some? ==> r.value in rs && r.value.name == name
    ensures r.None? <==> forall k :: 0 <= k < |rs| ==> rs[k].name != name
  {
    if rs == [] then None else if rs[0].name == name then Some(rs[0]) else FirstNamed(rs[1..], name)
  }

  // ----- the scanners as the source has them -----

  datatype ReadState = FileName | InodeNum | Store

  /** A character of a C++ string; reading one past the end gives the terminator. */
  function CharAt(s: string, i: nat): char
    requires i <= |s|
  {
    if i < |s| then s[i] else '\0'
  }

  /** Before the character at pos: `done` has been found, and a name is being read. */
  ghost predicate InName(s: string, pos: nat, done: seq<Raw>, name: string) {
    pos <= |s| && Plain(name) && Scan(s) == done + Scan(name + s[pos..])
  }

  /** Before the character at pos: a number is being read. */
  ghost predicate InNumber(s: string, pos: nat, done: seq<Raw>, name: string, num: string) {
    pos < |s| && Plain(name) && Plain(num) && Scan(s) == done + ScanNumber(name, num + s[pos..])
  }

  lemma NameMore(s: string, pos: nat, done: seq<Raw>, name: string)
    requires InName(s, pos, done, name) && pos < |s| && s[pos] != SEP
    ensures InName(s, pos + 1, done, name + [s[pos]])
  {
    assert name + s[pos..] == name + [s[pos]] + s[pos + 1..];
  }

  lemma NameEnds(s: string, pos: nat, done: seq<Raw>, name: string)
    requires InName(s, pos, done, name) && pos < |s| && s[pos] == SEP
    ensures Scan(s) == done + ScanNumber(name, s[pos + 1..])
  {
    assert name + s[pos..] == name + [SEP] + s[pos + 1..];
    ScanStep(name, s[pos + 1..]);
  }

  lemma NumberBegins(s: string, pos: nat, done: seq<Raw>, name: string)
    requires InName(s, pos, done, name) && pos < |s| && s[pos] == SEP
    ensures pos + 1 == |s| ==> Scan(s) == done
    ensures pos + 1 < |s| ==> InNumber(s, pos + 1, done, name, "")
  {
    NameEnds(s, pos, done, name);
    var rest := s[pos + 1..];
    assert "" + rest == rest;
    assert rest == "" ==> ScanNumber(name, rest) == [];
  }

  lemma NumberMore(s: string, pos: nat, done: seq<Raw>, name: string, num: string)
    requires InNumber(s, pos, done, name, num) && s[pos] != SEP && pos + 1 < |s|
    ensures InNumber(s, pos + 1, done, name, num + [s[pos]])
  {
    assert num + s[pos..] == num + [s[pos]] + s[pos + 1..];
  }

  lemma RegroupRaws(a: seq<Raw>, b: seq<Raw>, c: seq<Raw>)
    ensures a + (b + c) == a + b + c
  {
  }

  lemma NumberEnds(s: string, pos: nat, done: seq<Raw>, name: string, num: string)
    requires InNumber(s, pos, done, name, num) && s[pos] == SEP
    ensures InName(s, pos + 1, done + [Raw(name, num)], "")
  {
    var rest := s[pos + 1..];
    assert num + s[pos..] == num + [SEP] + rest;
    assert "" + rest == rest;
    NumberStep(name, num, rest);
    RegroupRaws(done, [Raw(name, num)], Scan(rest));
  }

  lemma TextEnds(s: string, pos: nat, done: seq<Raw>, name: string, num: string)
    requires InNumber(s, pos, done, name, num) && s[pos] != SEP && pos + 1 == |s|
    ensures InName(s, pos + 1, done + [Raw(name, num + [s[pos]])], "")
  {
    assert num + s[pos..] == num + [s[pos]];
    NumberStep(name, num + [s[pos]], "");
    assert "" + s[pos + 1..] == "" && Scan("") == [];
  }

  lemma NameUnfinished(s: string, done: seq<Raw>, name: string)
    requires InName(s, |s|, done, name)
    ensures Scan(s) == done
  {
    IndexAt(name, SEP, |name|);
    assert name + s[|s|..] == name;
  }

  /** Where the scanner stands between two rounds. */
  ghost predicate Standing(s: string, pos: nat, done: seq<Raw>, state: ReadState, name: string, num: string) {
    match state
    case FileName => num == "" && InName(s, pos, done, name)
    case InodeNum => InNumber(s, pos, done, name, num) || (pos > |s| && Scan(s) == done)
    case Store => false
  }

  /** One round of the scanning loop, up to the place where an entry may be complete.  Passing the
      separator after a name also reads the character behind it. */
  method Feed(dirList: string, pos: nat, state: ReadState, fileName: string, inodeNum: string, ghost done: seq<Raw>)
    returns (pos': nat, state': ReadState, fileName': string, inodeNum': string)
    requires pos < |dirList| && Standing(dirList, pos, done, state, fileName, inodeNum)
    ensures pos <= pos' <= |dirList|
    ensures !state'.Store? ==> Standing(dirList, pos' + 1, done, state', fileName', inodeNum')
    ensures state'.Store? ==> InName(dirList, pos' + 1, done + [Raw(fileName', inodeNum')], "")
  {
    pos', state', fileName', inodeNum' := pos, state, fileName, inodeNum;
    if state' == FileName {
      if dirList[pos'] == SEP {
        NumberBegins(dirList, pos, done, fileName);
        state' := InodeNum;
        pos' := pos' + 1;
      } else {
        NameMore(dirList, pos, done, fileName);
        fileName' := fileName' + [dirList[pos']];
      }
    }
    if state' == InodeNum {
      if CharAt(dirList, pos') == SEP {
        NumberEnds(dirList, pos', done, fileName', inodeNum');
        state' := Store;
      } else if pos' == |dirList| - 1 {
        TextEnds(dirList, pos', done, fileName', inodeNum');
        inodeNum' := inodeNum' + [CharAt(dirList, pos')];
        state' := Store;
      } else {
        if pos' < |dirList| { NumberMore(dirList, pos', done, fileName', inodeNum'); }
        inodeNum' := inodeNum' + [CharAt(dirList, pos')];
      }
    }
  }

  /** A whole round: the entry it completes, if any, and the state reset after it. */
  method Round(dirList: string, pos: nat, state: ReadState, fileName: string, inodeNum: string, ghost done: seq<Raw>)
    returns (pos': nat, state': ReadState, fileName': string, inodeNum': string, found: Option<Raw>)
    requires pos < |dirList| && Standing(dirList, pos, done, state, fileName, inodeNum)
    ensures pos < pos'
    ensures found.None? ==> Standing(dirList, pos', done, state', fileName', inodeNum')
    ensures found.Some? ==> Standing(dirList, pos', done + [found.value], state', fileName', inodeNum')
    ensures found.Some? ==> InName(dirList, pos', done + [found.value], "")
  {
    pos', state', fileName', inodeNum' := Feed(dirList, pos, state, fileName, inodeNum, done);
    found := None;
    if state' == Store {
      found := Some(Raw(fileName', inodeNum'));
      fileName', inodeNum' := "", "";
      state' := FileName;
    }
    pos' := pos' + 1;
  }

  lemma StandingDone(s: string, pos: nat, done: seq<Raw>, state: ReadState, name: string, num: string)
    requires Standing(s, pos, done, state, name, num) && pos >= |s|
    ensures Scan(s) == done
  {
    if state.FileName? { NameUnfinished(s, done, name); }
  }

  lemma StandingFirst(s: string)
    ensures Standing(s, 0, [], FileName, "", "")
  {
    assert "" + s[0..] == s;
  }

  /** nlock_readdir: every entry, in order. */
  method ReadDir(dirList: string) returns (list: seq<Entry>)
    ensures list == Entries(Scan(dirList))
  {
    ghost var done: seq<Raw> := [];
    list := [];
    var fileName, inodeNum := "", "";
    var state := FileName;
    StandingFirst(dirList);
    var pos := 0;
    while pos < |dirList|
      invariant Standing(dirList, pos, done, state, fileName, inodeNum)
      invariant list == Entries(done)
    {
      var found;
      pos, state, fileName, inodeNum, found := Round(dirList, pos, state, fileName, inodeNum, done);
      if found.Some? {
        list := list + [Entry(found.value.name, N2i(found.value.num))];
        done := done + [found.value];
      }
    }
    StandingDone(dirList, pos, done, state, fileName, inodeNum);
  }

  ghost predicate Absent(rs: seq<Raw>, name: string) {
    forall k :: 0 <= k < |rs| ==> rs[k].name != name
  }

  lemma AbsentMore(rs: seq<Raw>, r: Raw, name: string)
    requires Absent(rs, name) && r.name != name
    ensures Absent(rs + [r], name)
  {
  }

  lemma AbsentThere(rs: seq<Raw>, name: string)
    requires Absent(rs, name)
    ensures FirstNamed(rs, name).None?
  {
  }

  lemma NotYet(rs: seq<Raw>, done: seq<Raw>, r: Raw, rest: seq<Raw>, name: string)
    requires rs == done + [r] + rest && Absent(done, name)
    ensures r.name == name ==> FirstNamed(rs, name) == Some(r)
    decreases |done|
  {
    if done != [] {
      assert rs[1..] == done[1..] + [r] + rest;
      NotYet(rs[1..], done[1..], r, rest, name);
    }
  }

  lemma FoundHere(s: string, pos: nat, done: seq<Raw>, r: Raw, name: string)
    requires InName(s, pos, done + [r], "") && r.name == name && Absent(done, name)
    ensures FirstNamed(Scan(s), name) == Some(r)
  {
    NotYet(Scan(s), done, r, Scan("" + s[pos..]), name);
  }

  /** nlock_lookup: the first entry of that name; nothing if and only if there is none. */
  method Lookup(dirList: string, name: string) returns (r: Option<nat>)
    ensures r.Some? <==> FirstNamed(Scan(dirList), name).Some?
    ensures r.Some? ==> r.value == N2i(FirstNamed(Scan(dirList), name).value.num)
  {
    ghost var done: seq<Raw> := [];
    var fileName, inodeNum := "", "";
    var state := FileName;
    StandingFirst(dirList);
    var pos := 0;
    while pos < |dirList|
      invariant Standing(dirList, pos, done, state, fileName, inodeNum)
      invariant Absent(done, name)
    {
      var found;
      pos, state, fileName, inodeNum, found := Round(dirList, pos, state, fileName, inodeNum, done);
      if found.Some? {
        if found.value.name == name {
          FoundHere(dirList, pos, done, found.value, name);
          r := Some(N2i(found.value.num));
          return;
        }
        AbsentMore(done, found.value, name);
        done := done + [found.value];
      }
    }
    StandingDone(dirList, pos, done, state, fileName, inodeNum);
    AbsentThere(done, name);
    r := None;
  }
}
