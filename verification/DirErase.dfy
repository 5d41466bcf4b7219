/** unlink: the entry is found by searching the directory's text for the name, and cut out there. */
module DirErase {
  import opened Options
  import opened DirText

  predicate OccursAt(s: string, sub: string, i: nat) {
    i + |sub| <= |s| && s[i..i + |sub|] == sub
  }

  /** std::string::find from a place on. */
  function FindFrom(s: string, sub: string, from: nat): (r: Option<nat>)
    requires from <= |s|
    ensures r.Some? ==>
              && from <= r.value && OccursAt(s, sub, r.value)
              && forall k: nat :: from <= k < r.value ==> !OccursAt(s, sub, k)
    ensures r.None? ==> forall k: nat :: from <= k ==> !OccursAt(s, sub, k)
    decreases |s| - from
  {
    if OccursAt(s, sub, from) then Some(from)
    else if from == |s| then None
    else FindFrom(s, sub, from + 1)
  }

  /** std::string::erase. */
  function EraseAt(s: string, pos: nat, n: nat): string
    requires pos <= |s|
  {
    s[..pos] + if pos + n <= |s| then s[pos + n..] else ""
  }

  /** Cutting out an entry of len characters that is taken to begin at `begin`. */
  function Cut(text: string, begin: nat, len: nat): string
    requires begin <= |text|
  {
    var cut := if begin == 0 && |text| == begin + len then EraseAt(text, begin, len)
               else if |text| == begin + len then EraseAt(text, begin - 1, len + 1)
               else EraseAt(text, begin, len + 1);
    if cut == "" || cut[0] == '\0' then "" else cut
  }

  /** The new text of the directory after unlinking `name`, whose number prints as `num`. */
  function Unlinked(text: string, name: string, num: string): string
    requires FindFrom(text, name, 0).Some?
  {
    Cut(text, FindFrom(text, name, 0).value, |name + [SEP] + num|)
  }

  // ----- cutting strings -----

  /** `left` is `text` without the m characters from `end` on. */
  ghost predicate Skips(text: string, left: string, end: nat, m: nat) {
    && |text| == |left| + m && end <= |left|
    && (forall j :: 0 <= j < end ==> left[j] == text[j])
    && forall j :: end <= j < |left| ==> left[j] == text[j + m]
  }

  lemma SkipLast(before: string, mid: string)
    ensures Skips(before + [SEP] + mid + "", before, |before|, |mid| + 1)
  {
  }

  lemma SkipMid(before: string, mid: string, after: string)
    ensures Skips(before + mid + ([SEP] + after), before + after, |before|, |mid| + 1)
  {
  }

  /** Where the len + 1 characters are that must go: an entry at the end takes the separator
      before it. */
  function SkipAt(text: string, q: nat, len: nat): nat {
    if |text| == q + len && q > 0 then q - 1 else q
  }

  /** The text without the entry of len characters at q. */
  ghost predicate Lacks(text: string, left: string, q: nat, len: nat) {
    && q + len <= |text| && '\0' !in text
    && if q == 0 && |text| == len then left == "" else Skips(text, left, SkipAt(text, q, len), len + 1)
  }

  lemma LeftNoNul(text: string, left: string, q: nat, len: nat)
    requires Lacks(text, left, q, len)
    ensures '\0' !in left
  {
  }

  lemma SkipsErased(text: string, left: string, end: nat, m: nat)
    requires Skips(text, left, end, m)
    ensures EraseAt(text, end, m) == left
  {
  }

  lemma CutInPlace(text: string, left: string, q: nat, len: nat)
    requires Lacks(text, left, q, len)
    ensures Cut(text, q, len) == left
  {
    LeftNoNul(text, left, q, len);
    if q == 0 && |text| == len {
    } else {
      SkipsErased(text, left, SkipAt(text, q, len), len + 1);
      assert left != "" ==> left[0] in left;
    }
  }

  /** The text agrees with itself m characters further on, from p up to `end`. */
  ghost predicate Repeats(text: string, p: nat, end: nat, m: nat) {
    forall j :: p <= j < end && j + m < |text| ==> text[j] == text[j + m]
  }

  /** Cutting too early gives the same text exactly when the stretch in between repeats. */
  lemma EarlyIff(text: string, left: string, p: nat, end: nat, m: nat)
    requires Skips(text, left, end, m) && p <= end
    ensures EraseAt(text, p, m) == left <==> Repeats(text, p, end, m)
  {
    var cut := EraseAt(text, p, m);
    assert forall j :: 0 <= j < |cut| ==> cut[j] == if j < p then text[j] else text[j + m];
    if Repeats(text, p, end, m) {
      assert cut == left;
    } else {
      var j :| p <= j < end && j + m < |text| && text[j] != text[j + m];
      assert cut[j] != left[j];
    }
  }

  lemma CutTooEarly(text: string, p: nat, q: nat, len: nat)
    requires p < q && q + len <= |text| && '\0' !in text
    ensures Cut(text, p, len) == EraseAt(text, p, len + 1)
  {
    var cut := EraseAt(text, p, len + 1);
    assert cut != "" ==> cut[0] in text;
  }

  lemma CutIff(text: string, left: string, p: nat, q: nat, len: nat)
    requires Lacks(text, left, q, len) && p <= q
    ensures Cut(text, p, len) == left <==> Repeats(text, p, SkipAt(text, q, len), len + 1)
  {
    if p == q {
      CutInPlace(text, left, q, len);
    } else {
      CutTooEarly(text, p, q, len);
      EarlyIff(text, left, p, SkipAt(text, q, len), len + 1);
    }
  }

  // ----- the text around an entry -----

  /** The text before entry e in a + [e] + b. */
  function Front(a: seq<Entry>): string {
    if a == [] then "" else Print(a) + [SEP]
  }

  function Back(b: seq<Entry>): string {
    if b == [] then "" else [SEP] + Print(b)
  }

  predicate Clean(es: seq<Entry>) {
    Listable(es) && forall k :: 0 <= k < |es| ==> '\0' !in es[k].name
  }

  lemma {:induction false} NoNul(es: seq<Entry>)
    requires Clean(es)
    ensures '\0' !in Print(es)
  {
    if es != [] {
      assert '\0' !in EntryText(es[0]);
      NoNul(es[1..]);
    }
  }

  lemma PrintCons(e: Entry, b: seq<Entry>)
    ensures Print([e] + b) == EntryText(e) + Back(b)
  {
    if b == [] {
      assert [e] + b == [e];
    } else {
      PrintConcat([e], b);
      Reassociate(EntryText(e), [SEP], Print(b));
    }
  }

  lemma Reassociate(x: string, y: string, z: string)
    ensures x + y + z == x + (y + z)
  {
  }

  lemma PrintAppend(a: seq<Entry>, b: seq<Entry>)
    ensures Print(a + b) == if b == [] then Print(a) else Front(a) + Print(b)
  {
    if b == [] {
      assert a + b == a;
    } else if a == [] {
      assert a + b == b;
    } else {
      PrintConcat(a, b);
    }
  }

  lemma PrintSplit(a: seq<Entry>, e: Entry, b: seq<Entry>)
    ensures Print(a + [e] + b) == Front(a) + EntryText(e) + Back(b)
    ensures Print(a + b) == if b == [] then Print(a) else Front(a) + Print(b)
  {
    assert a + [e] + b == a + ([e] + b);
    PrintAppend(a, [e] + b);
    PrintCons(e, b);
    Reassociate(Front(a), EntryText(e), Back(b));
    PrintAppend(a, b);
  }

  lemma WithoutEntry(a: seq<Entry>, e: Entry, b: seq<Entry>)
    requires Clean(a + [e] + b)
    ensures Lacks(Print(a + [e] + b), Print(a + b), |Front(a)|, |EntryText(e)|)
  {
    NoNul(a + [e] + b);
    PrintSplit(a, e, b);
    if b != [] {
      SkipMid(Front(a), EntryText(e), Print(b));
    } else if a != [] {
      SkipLast(Print(a), EntryText(e));
    }
  }

  lemma OwnPlace(a: seq<Entry>, e: Entry, b: seq<Entry>)
    ensures OccursAt(Print(a + [e] + b), e.name, |Front(a)|)
  {
    PrintSplit(a, e, b);
  }

  lemma UnlinkedIs(text: string, e: Entry, p: nat)
    requires FindFrom(text, e.name, 0) == Some(p)
    ensures p <= |text| && Unlinked(text, e.name, Decimal(e.inum)) == Cut(text, p, |EntryText(e)|)
  {
  }

  /** unlink removes exactly entry e, the others staying in order, if and only if the text between
      the first place where its name occurs and the entry itself repeats one entry length on.  When
      the first place is the entry's own, nothing lies between. */
  lemma UnlinkIff(a: seq<Entry>, e: Entry, b: seq<Entry>, text: string, p: nat)
    requires Clean(a + [e] + b) && text == Print(a + [e] + b) && FindFrom(text, e.name, 0) == Some(p)
    ensures p <= |Front(a)|
    ensures Unlinked(text, e.name, Decimal(e.inum)) == Print(a + b)
       <==> Repeats(text, p, SkipAt(text, |Front(a)|, |EntryText(e)|), |EntryText(e)| + 1)
  {
    OwnPlace(a, e, b);
    var left, q, len := Print(a + b), |Front(a)|, |EntryText(e)|;
    UnlinkedIs(text, e, p);
    assert Lacks(text, left, q, len) by { WithoutEntry(a, e, b); }
    CutIff(text, left, p, q, len);
  }

  // ----- when the first place must be the entry's own -----

  predicate AllDigits(s: string) {
    forall k :: 0 <= k < |s| ==> IsDigit(s[k])
  }

  /** In text, an entry `name;num` at q, before it a separator, and before that the number `fn`
      and another separator. */
  ghost predicate Laid(text: string, fn: string, q: nat, name: string, num: string) {
    && |fn| + 2 <= q && q + |name| + 1 + |num| <= |text|
    && text[q - 2 - |fn|] == SEP && text[q - 1] == SEP && text[q + |name|] == SEP
    && (forall k :: 0 <= k < |fn| ==> text[q - 1 - |fn| + k] == fn[k])
    && (forall k :: 0 <= k < |name| ==> text[q + k] == name[k])
    && forall k :: 0 <= k < |num| ==> text[q + |name| + 1 + k] == num[k]
  }

  /** A name without separators that occurs before q ends before the separator at q - 1. */
  lemma EndsBefore(text: string, name: string, p: nat, q: nat)
    requires OccursAt(text, name, p) && p < q <= |text| && text[q - 1] == SEP && Plain(name)
    ensures p + |name| <= q - 1
    ensures forall k :: 0 <= k < |name| ==> text[p + k] == name[k]
  {
    forall k | 0 <= k < |name| ensures text[p + k] == name[k] { assert text[p..p + |name|][k] == name[k]; }
  }

  /** If the stretch repeats, the text before q reads backwards as the number does. */
  lemma Mirrored(text: string, fn: string, q: nat, name: string, num: string, p: nat, i: nat)
    requires Laid(text, fn, q, name, num) && p < q && Repeats(text, p, q - 1, |name| + 1 + |num| + 1)
    requires 2 <= i <= |num| + 2 && i <= q - p
    ensures i <= |num| + 1 ==> text[q - i] == num[|num| + 1 - i]
    ensures i == |num| + 2 ==> text[q - i] == SEP
  {
    var m := |name| + 1 + |num| + 1;
    assert text[q - i] == text[q - i + m];
    if i <= |num| + 1 {
      assert text[q + |name| + 1 + (|num| + 1 - i)] == num[|num| + 1 - i];
    }
  }

  lemma LongerNumber(text: string, fn: string, q: nat, name: string, num: string, n: nat)
    requires Laid(text, fn, q, name, num) && AllDigits(fn)
    ensures |fn| > n ==> IsDigit(text[q - 2 - n])
  {
    if |fn| > n { assert text[q - 1 - |fn| + (|fn| - n - 1)] == fn[|fn| - n - 1]; }
  }

  lemma NumbersAgree(text: string, fn: string, q: nat, name: string, num: string, p: nat)
    requires Laid(text, fn, q, name, num) && AllDigits(fn) && AllDigits(num)
    requires p < q && q - p >= |num| + 2 && Repeats(text, p, q - 1, |name| + 1 + |num| + 1)
    ensures fn == num
  {
    LongerNumber(text, fn, q, name, num, |num|);
    if |fn| < |num| {
      Mirrored(text, fn, q, name, num, p, |fn| + 2);
    }
    Mirrored(text, fn, q, name, num, p, |num| + 2);
    forall k | 0 <= k < |num| ensures fn[k] == num[k] {
      Mirrored(text, fn, q, name, num, p, |num| + 1 - k);
    }
  }

  lemma NeverRepeats(text: string, fn: string, q: nat, name: string, num: string, p: nat)
    requires Laid(text, fn, q, name, num) && AllDigits(fn) && AllDigits(num) && fn != num
    requires Plain(name) && !AllDigits(name) && OccursAt(text, name, p) && p < q
    ensures !Repeats(text, p, q - 1, |name| + 1 + |num| + 1)
  {
    if Repeats(text, p, q - 1, |name| + 1 + |num| + 1) {
      EndsBefore(text, name, p, q);
      if q - p >= |num| + 2 {
        NumbersAgree(text, fn, q, name, num, p);
      } else {
        var k :| 0 <= k < |name| && !IsDigit(name[k]);
        Mirrored(text, fn, q, name, num, p, q - p - k);
      }
    }
  }

  lemma LaidOut(text: string, x: string, fn: string, q: nat, name: string, num: string, back: string)
    requires x != "" && x[|x| - 1] == SEP && q == |x| + |fn| + 1 && text == x + fn + [SEP] + (name + [SEP] + num) + back
    ensures Laid(text, fn, q, name, num)
  {
  }

  lemma Unfold(front: string, name: string, num: string)
    ensures front + (name + [SEP] + num) + "" + [SEP] == (front + name + [SEP]) + num + [SEP]
  {
  }

  lemma FrontEnds(a: seq<Entry>, f: Entry)
    ensures Front(a + [f]) == (Front(a) + f.name + [SEP]) + Decimal(f.inum) + [SEP]
  {
    assert a + [f] == a + [f] + [];
    PrintSplit(a, f, []);
    Unfold(Front(a), f.name, Decimal(f.inum));
  }

  lemma EntryLaid(a: seq<Entry>, f: Entry, e: Entry, b: seq<Entry>)
    ensures Laid(Print(a + [f] + [e] + b), Decimal(f.inum), |Front(a + [f])|, e.name, Decimal(e.inum))
  {
    var x := Front(a) + f.name + [SEP];
    assert Print(a + [f] + [e] + b) == x + Decimal(f.inum) + [SEP] + EntryText(e) + Back(b)
        && |Front(a + [f])| == |x| + |Decimal(f.inum)| + 1 by {
      PrintSplit(a + [f], e, b);
      FrontEnds(a, f);
    }
    LaidOut(Print(a + [f] + [e] + b), x, Decimal(f.inum), |Front(a + [f])|, e.name, Decimal(e.inum), Back(b));
  }

  /** For a name with a character that is no digit, and whose neighbour has another number: unlink
      removes exactly its entry if and only if the name occurs nowhere before it. */
  lemma UnlinkPlaceIff(a: seq<Entry>, e: Entry, b: seq<Entry>, text: string, p: nat)
    requires Clean(a + [e] + b) && text == Print(a + [e] + b) && FindFrom(text, e.name, 0) == Some(p)
    requires !AllDigits(e.name) && (a != [] ==> a[|a| - 1].inum != e.inum)
    ensures Unlinked(text, e.name, Decimal(e.inum)) == Print(a + b) <==> p == |Front(a)|
  {
    UnlinkIff(a, e, b, text, p);
    if p < |Front(a)| {
      SplitLast(a);
      assert Plain(e.name) by { assert e == (a + [e] + b)[|a|]; }
      EarlyIsWrong(a[..|a| - 1], a[|a| - 1], e, b, text, p);
    }
  }

  lemma EarlyIsWrong(a: seq<Entry>, f: Entry, e: Entry, b: seq<Entry>, text: string, p: nat)
    requires text == Print(a + [f] + [e] + b) && Plain(e.name) && !AllDigits(e.name) && f.inum != e.inum
    requires OccursAt(text, e.name, p) && p < |Front(a + [f])|
    ensures !Repeats(text, p, SkipAt(text, |Front(a + [f])|, |EntryText(e)|), |EntryText(e)| + 1)
  {
    var q, len := |Front(a + [f])|, |EntryText(e)|;
    var fn, num := Decimal(f.inum), Decimal(e.inum);
    if fn == num { DecimalInjective(f.inum, e.inum); }
    EntryLaid(a, f, e, b);
    NeverRepeats(text, fn, q, e.name, num, p);
    Shorter(text, p, q - 1, SkipAt(text, q, len), len + 1);
  }

  lemma SplitLast(a: seq<Entry>)
    requires a != []
    ensures a == a[..|a| - 1] + [a[|a| - 1]]
  {
  }

  lemma Shorter(text: string, p: nat, end: nat, end': nat, m: nat)
    requires end <= end' && !Repeats(text, p, end, m)
    ensures !Repeats(text, p, end', m)
  {
  }

  /** Unlinking `a` from a directory that also has `ab` before it takes the wrong entry. */
  lemma UnlinkHurts()
    ensures var es := [Entry("ab", 2), Entry("a", 3)];
            && FindFrom(Print(es), "a", 0) == Some(0)
            && Unlinked(Print(es), "a", Decimal(3)) == ";a;3"
            && Print([Entry("ab", 2)]) == "ab;2"
  {
    var es := [Entry("ab", 2), Entry("a", 3)];
    Small();
    assert es == [es[0]] + [es[1]];
    PrintConcat([es[0]], [es[1]]);
    assert Print(es) == "ab;2;a;3";
    assert OccursAt("ab;2;a;3", "a", 0);
    assert FindFrom("ab;2;a;3", "a", 0) == Some(0);
    assert Cut("ab;2;a;3", 0, 3) == ";a;3";
  }

  lemma Small()
    ensures EntryText(Entry("ab", 2)) == "ab;2" && EntryText(Entry("a", 3)) == "a;3" && Decimal(3) == "3"
  {
    assert Decimal(2) == "2" && Decimal(3) == "3";
  }
}
