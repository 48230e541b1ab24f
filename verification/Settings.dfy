/** Promoting a worktree's Claude permissions to its repository, and pruning them
    (internal/agent/claude_settings.go). */
module Settings {
  import opened Text

  /** What JSON decodes to; numbers and booleans do not matter here. A nil slice is
      Null: it is treated like one and written as one. */
  datatype Json = Null | Scalar | Str(s: string) | Arr(items: seq<Json>) | Obj(fields: map<string, Json>)

  type Fields = map<string, Json>

  const PERMISSIONS := "permissions"
  const BUCKETS := ["allow", "ask", "deny"]

  function ObjAt(m: Fields, key: string): Fields {
    if key in m && m[key].Obj? then m[key].fields else map[]
  }

  function ListAt(m: Fields, key: string): seq<Json> {
    if key in m && m[key].Arr? then m[key].items else []
  }

  // ---- Merging ----

  function Strings(list: seq<Json>): (ss: set<string>)
    ensures forall s :: s in ss <==> Str(s) in list
    decreases |list|
  {
    if list == [] then {}
    else
      assert list == [list[0]] + list[1..];
      (if list[0].Str? then {list[0].s} else {}) + Strings(list[1..])
  }

  /** The strings of src that are new, each once. */
  function Additions(seen: set<string>, src: seq<Json>): seq<string>
    decreases |src|
  {
    if src == [] then []
    else if src[0].Str? && src[0].s !in seen then [src[0].s] + Additions(seen + {src[0].s}, src[1..])
    else Additions(seen, src[1..])
  }

  function Entries(ss: seq<string>): (list: seq<Json>)
    ensures |list| == |ss| && forall i :: 0 <= i < |ss| ==> list[i] == Str(ss[i])
  {
    seq(|ss|, i requires 0 <= i < |ss| => Str(ss[i]))
  }

  function NewIn(dst: seq<Json>, src: seq<Json>): seq<string> {
    Additions(Strings(dst), src)
  }

  function MergedList(dst: seq<Json>, src: seq<Json>): seq<Json> {
    dst + Entries(NewIn(dst, src))
  }

  function MergeBucket(dst: Fields, src: Fields, b: string): Fields {
    var list := MergedList(ListAt(dst, b), ListAt(src, b));
    if ListAt(src, b) != [] && list != [] then dst[b := Arr(list)] else dst
  }

  function MergeBuckets(dst: Fields, src: Fields, bs: seq<string>): Fields {
    if bs == [] then dst
    else MergeBucket(MergeBuckets(dst, src, bs[..|bs| - 1]), src, bs[|bs| - 1])
  }

  function AddedTo(dst: Fields, src: Fields, bs: seq<string>): seq<string> {
    if bs == [] then []
    else
      var b := bs[|bs| - 1];
      AddedTo(dst, src, bs[..|bs| - 1]) + NewIn(ListAt(dst, b), ListAt(src, b))
  }

  /** mergeSettingsLocal's result. */
  function Merge(dst: Fields, src: Fields): Fields {
    if PERMISSIONS !in src || !src[PERMISSIONS].Obj? then dst
    else
      var perms := MergeBuckets(ObjAt(dst, PERMISSIONS), src[PERMISSIONS].fields, BUCKETS);
      if perms == map[] then dst else dst[PERMISSIONS := Obj(perms)]
  }

  function Added(dst: Fields, src: Fields): seq<string> {
    AddedTo(ObjAt(dst, PERMISSIONS), ObjAt(src, PERMISSIONS), BUCKETS)
  }

  class Document {
    var fields: Fields

    constructor (fields: Fields)
      ensures this.fields == fields
    {
      this.fields := fields;
    }
  }

  method MergeSettingsLocal(dst: Document?, src: Document?) returns (r: Document, added: seq<string>)
    modifies dst
    ensures dst != null ==> r == dst
    ensures dst == null ==> fresh(r)
    ensures src == null ==> added == [] && r.fields == if dst == null then map[] else old(dst.fields)
    ensures src != null ==>
      var before := if dst == null then map[] else old(dst.fields);
      r.fields == Merge(before, old(src.fields)) && added == Added(before, old(src.fields))
  {
    hide MergeBuckets, AddedTo, MergeBucket, NewIn;
    if dst == null {
      r := new Document(map[]);
    } else {
      r := dst;
    }
    if src == null {
      return r, [];
    }
    var source := src.fields;
    added := [];
    if PERMISSIONS !in source || !source[PERMISSIONS].Obj? {
      NoBuckets(ObjAt(r.fields, PERMISSIONS), BUCKETS);
      return;
    }
    var from, perms := source[PERMISSIONS].fields, ObjAt(r.fields, PERMISSIONS);
    ghost var before, unmerged := perms, r.fields;
    NoneYet(before, from);
    for i := 0 to |BUCKETS|
      invariant r.fields == unmerged
      invariant perms == MergeBuckets(before, from, BUCKETS[..i])
      invariant added == AddedTo(before, from, BUCKETS[..i])
    {
      var b := BUCKETS[i];
      NextBucket(before, from, i);
      perms, added := MergeInto(perms, from, b, added);
    }
    assert BUCKETS[..|BUCKETS|] == BUCKETS;
    if perms != map[] {
      r.fields := r.fields[PERMISSIONS := Obj(perms)];
    }
  }

  lemma NothingToAdd(seen: set<string>)
    ensures Additions(seen, []) == []
  {
  }

  /** One bucket: append each source string not seen yet. */
  method MergeInto(perms: Fields, from: Fields, b: string, already: seq<string>)
    returns (merged: Fields, added: seq<string>)
    ensures merged == MergeBucket(perms, from, b)
    ensures added == already + NewIn(ListAt(perms, b), ListAt(from, b))
  {
    hide Strings, Entries, Additions;
    merged, added := perms, already;
    NothingToAdd(Strings(ListAt(perms, b)));
    var srcList := ListAt(from, b);
    if srcList == [] {
      return;
    }
    var dstList := ListAt(perms, b);
    ghost var target := dstList + Entries(NewIn(dstList, srcList));
    ghost var all := already + NewIn(dstList, srcList);
    var seen := Strings(dstList);
    assert srcList[0..] == srcList;
    for i := 0 to |srcList|
      invariant dstList + Entries(Additions(seen, srcList[i..])) == target
      invariant added + Additions(seen, srcList[i..]) == all
    {
      var e := srcList[i];
      NextAddition(seen, srcList, i, dstList, added);
      if e.Str? && e.s !in seen {
        seen, dstList, added := seen + {e.s}, dstList + [e], added + [e.s];
      }
    }
    NoneLeft(seen, srcList, dstList, added);
    if dstList != [] {
      merged := perms[b := Arr(dstList)];
    }
  }

  /** One turn of the loop over the source list. */
  lemma NextAddition(seen: set<string>, src: seq<Json>, i: nat, list: seq<Json>, added: seq<string>)
    requires i < |src|
    ensures var e, a := src[i], Additions(seen, src[i..]);
            if e.Str? && e.s !in seen then
              var rest := Additions(seen + {e.s}, src[i + 1..]);
              list + Entries(a) == list + [e] + Entries(rest) && added + a == added + [e.s] + rest
            else a == Additions(seen, src[i + 1..])
  {
    var e := src[i];
    assert src[i..][0] == e && src[i..][1..] == src[i + 1..];
    if e.Str? && e.s !in seen {
      var rest := Additions(seen + {e.s}, src[i + 1..]);
      assert Additions(seen, src[i..]) == [e.s] + rest;
      hide Additions;
      assert Entries([e.s] + rest) == [e] + Entries(rest);
      Regroup(list, [e], Entries(rest));
      Regroup(added, [e.s], rest);
    }
  }

  lemma Regroup<T>(a: seq<T>, b: seq<T>, c: seq<T>)
    ensures a + (b + c) == a + b + c
  {
  }

  lemma NoneLeft(seen: set<string>, src: seq<Json>, list: seq<Json>, added: seq<string>)
    ensures var a := Additions(seen, src[|src|..]); list + Entries(a) == list && added + a == added
  {
  }

  lemma NoneYet(dst: Fields, src: Fields)
    ensures MergeBuckets(dst, src, BUCKETS[..0]) == dst && AddedTo(dst, src, BUCKETS[..0]) == []
  {
  }

  lemma {:induction false} NoBuckets(dst: Fields, bs: seq<string>)
    ensures AddedTo(dst, map[], bs) == []
  {
    if bs != [] {
      NoBuckets(dst, bs[..|bs| - 1]);
    }
  }

  lemma NextBucket(dst: Fields, src: Fields, i: nat)
    requires i < |BUCKETS|
    ensures var merged, b := MergeBuckets(dst, src, BUCKETS[..i]), BUCKETS[i];
            && ListAt(merged, b) == ListAt(dst, b)
            && MergeBuckets(dst, src, BUCKETS[..i + 1]) == MergeBucket(merged, src, b)
            && AddedTo(dst, src, BUCKETS[..i + 1]) ==
               AddedTo(dst, src, BUCKETS[..i]) + NewIn(ListAt(merged, b), ListAt(src, b))
  {
    hide MergeBucket, NewIn;
    var b := BUCKETS[i];
    assert BUCKETS[..i + 1][..i] == BUCKETS[..i] && BUCKETS[..i + 1][i] == b;
    forall k | 0 <= k < i ensures BUCKETS[..i][k] != b {
    }
    OtherBucketsStay(dst, src, BUCKETS[..i], b);
  }

  lemma {:induction false} OtherBucketsStay(dst: Fields, src: Fields, bs: seq<string>, key: string)
    requires key !in bs
    ensures var m := MergeBuckets(dst, src, bs);
            (key in m <==> key in dst) && (key in dst ==> m[key] == dst[key])
  {
    if bs != [] {
      OtherBucketsStay(dst, src, bs[..|bs| - 1], key);
    }
  }

  // ---- What a merge adds ----

  /** The position where a string first occurs. */
  function FirstAt(src: seq<Json>, s: string): nat
    requires Str(s) in src
    decreases |src|
  {
    if src[0] == Str(s) then 0 else 1 + FirstAt(src[1..], s)
  }

  lemma {:induction false} AddsTheMissing(seen: set<string>, src: seq<Json>, s: string)
    ensures s in Additions(seen, src) <==> Str(s) in src && s !in seen
    decreases |src|
  {
    if src != [] {
      var head, tail := src[0], src[1..];
      assert src == [head] + tail;
      if head.Str? && head.s !in seen {
        AddsTheMissing(seen + {head.s}, tail, s);
      } else {
        AddsTheMissing(seen, tail, s);
      }
    }
  }

  lemma {:induction false} AddsInOrder(seen: set<string>, src: seq<Json>, i: nat, j: nat)
    requires i < j < |Additions(seen, src)|
    ensures var a := Additions(seen, src);
            Str(a[i]) in src && Str(a[j]) in src && FirstAt(src, a[i]) < FirstAt(src, a[j])
    decreases |src|
  {
    var head, tail, a := src[0], src[1..], Additions(seen, src);
    AddsTheMissing(seen, src, a[i]);
    AddsTheMissing(seen, src, a[j]);
    if head.Str? && head.s !in seen {
      AddsTheMissing(seen + {head.s}, tail, a[j]);
      if i > 0 {
        AddsTheMissing(seen + {head.s}, tail, a[i]);
        AddsInOrder(seen + {head.s}, tail, i - 1, j - 1);
      }
    } else {
      AddsInOrder(seen, tail, i, j);
    }
  }

  /** Exactly the missing strings are added, each once, in the order in which they
      first occur in the source: this fixes the list. */
  lemma AddsEachMissingOnceInOrder(seen: set<string>, src: seq<Json>)
    ensures var a := Additions(seen, src);
            && (forall s :: s in a <==> Str(s) in src && s !in seen)
            && (forall i, j :: 0 <= i < j < |a| ==> FirstAt(src, a[i]) < FirstAt(src, a[j]))
  {
    hide Additions, FirstAt;
    forall s ensures s in Additions(seen, src) <==> Str(s) in src && s !in seen {
      AddsTheMissing(seen, src, s);
    }
    forall i: nat, j: nat | i < j < |Additions(seen, src)|
      ensures FirstAt(src, Additions(seen, src)[i]) < FirstAt(src, Additions(seen, src)[j])
    {
      AddsInOrder(seen, src, i, j);
    }
  }

  /** A merge keeps every list as a prefix and every other key as it was. */
  lemma MergeKeeps(dst: Fields, src: Fields, key: string)
    ensures key != PERMISSIONS ==>
      (key in Merge(dst, src) <==> key in dst) && (key in dst ==> Merge(dst, src)[key] == dst[key])
    ensures key in BUCKETS ==>
      ListAt(ObjAt(Merge(dst, src), PERMISSIONS), key) ==
        MergedList(ListAt(ObjAt(dst, PERMISSIONS), key), ListAt(ObjAt(src, PERMISSIONS), key))
    ensures key !in BUCKETS ==>
      var p, q := ObjAt(dst, PERMISSIONS), ObjAt(Merge(dst, src), PERMISSIONS);
      (key in q <==> key in p) && (key in p ==> q[key] == p[key])
  {
    hide MergedList;
    var p, from := ObjAt(dst, PERMISSIONS), ObjAt(src, PERMISSIONS);
    if key in BUCKETS {
      NothingToMerge(ListAt(p, key));
      BucketAfter(p, from, key);
      MergingOnlyAdds(ListAt(p, key), ListAt(from, key));
    } else {
      OtherBucketsStay(p, from, BUCKETS, key);
    }
  }

  lemma MergingOnlyAdds(dst: seq<Json>, src: seq<Json>)
    ensures dst <= MergedList(dst, src)
  {
  }

  lemma NothingToMerge(list: seq<Json>)
    ensures MergedList(list, []) == list
  {
  }

  lemma BucketAfter(dst: Fields, src: Fields, key: string)
    requires key in BUCKETS
    ensures ListAt(MergeBuckets(dst, src, BUCKETS), key) == MergedList(ListAt(dst, key), ListAt(src, key))
  {
    hide MergedList, MergeBuckets, AddedTo, MergeBucket;
    var i :| 0 <= i < 3 && key == BUCKETS[i];
    NoneYet(dst, src);
    NextBucket(dst, src, i);
    BucketMerged(MergeBuckets(dst, src, BUCKETS[..i]), src, key);
    StaysAfter(dst, src, i + 1, 3, key);
    assert BUCKETS[..3] == BUCKETS;
  }

  lemma BucketMerged(dst: Fields, src: Fields, key: string)
    ensures ListAt(MergeBucket(dst, src, key), key) == MergedList(ListAt(dst, key), ListAt(src, key))
  {
    NothingToMerge(ListAt(dst, key));
    hide NewIn;
  }

  lemma {:induction false} StaysAfter(dst: Fields, src: Fields, i: nat, n: nat, key: string)
    requires i <= n <= 3 && forall k :: i <= k < n ==> BUCKETS[k] != key
    ensures ListAt(MergeBuckets(dst, src, BUCKETS[..n]), key) == ListAt(MergeBuckets(dst, src, BUCKETS[..i]), key)
  {
    if i < n {
      StaysAfter(dst, src, i, n - 1, key);
      hide MergeBuckets, MergedList;
      NextBucket(dst, src, n - 1);
    }
  }

  // ---- Merging again ----

  lemma {:induction false} NothingNew(seen: set<string>, src: seq<Json>)
    requires forall s :: Str(s) in src ==> s in seen
    ensures Additions(seen, src) == []
  {
    if src != [] {
      assert src == [src[0]] + src[1..];
      NothingNew(seen, src[1..]);
    }
  }

  lemma MergedHasAll(dst: seq<Json>, src: seq<Json>, s: string)
    requires Str(s) in src
    ensures Str(s) in MergedList(dst, src)
  {
    AddsEachMissingOnceInOrder(Strings(dst), src);
    if s in NewIn(dst, src) {
      var i :| 0 <= i < |NewIn(dst, src)| && NewIn(dst, src)[i] == s;
      assert Entries(NewIn(dst, src))[i] == Str(s);
    }
  }

  lemma ListSettles(dst: seq<Json>, src: seq<Json>)
    requires forall s :: Str(s) in src ==> Str(s) in dst
    ensures NewIn(dst, src) == [] && MergedList(dst, src) == dst
  {
    NothingNew(Strings(dst), src);
  }

  lemma {:induction false} BucketsSettle(dst: Fields, src: Fields, bs: seq<string>)
    requires forall b, s :: b in bs && Str(s) in ListAt(src, b) ==> Str(s) in ListAt(dst, b)
    ensures MergeBuckets(dst, src, bs) == dst && AddedTo(dst, src, bs) == []
  {
    hide MergedList, NewIn;
    if bs != [] {
      BucketsSettle(dst, src, bs[..|bs| - 1]);
      var b := bs[|bs| - 1];
      ListSettles(ListAt(dst, b), ListAt(src, b));
      assert ListAt(dst, b) != [] ==> dst[b := Arr(ListAt(dst, b))] == dst;
    }
  }

  /** Merging the same source again adds nothing and changes nothing. */
  lemma MergeTwice(dst: Fields, src: Fields)
    ensures Merge(Merge(dst, src), src) == Merge(dst, src) && Added(Merge(dst, src), src) == []
  {
    hide MergeBuckets, AddedTo, MergedList;
    var once := Merge(dst, src);
    var p, from := ObjAt(once, PERMISSIONS), ObjAt(src, PERMISSIONS);
    forall b, s | b in BUCKETS && Str(s) in ListAt(from, b) ensures Str(s) in ListAt(p, b) {
      MergeKeeps(dst, src, b);
      MergedHasAll(ListAt(ObjAt(dst, PERMISSIONS), b), ListAt(from, b), s);
    }
    BucketsSettle(p, from, BUCKETS);
    assert p != map[] ==> once[PERMISSIONS := Obj(p)] == once;
  }

  // ---- Pruning ----

  /** The argument of a Bash entry. */
  function BashArg(entry: string): (r: (string, bool)) {
    if |entry| >= 6 && entry[..5] == "Bash(" && entry[|entry| - 1] == ')' then (entry[5..|entry| - 1], true)
    else ("", false)
  }

  function Bash(arg: string): string {
    "Bash(" + arg + ")"
  }

  /** An entry is a Bash entry exactly when it is "Bash(" + arg + ")" for an argument;
      any other has none. */
  lemma BashArgIff(entry: string, arg: string)
    ensures BashArg(entry) == (arg, true) <==> entry == Bash(arg)
    ensures BashArg(entry).1 <==> HasPrefix(entry, "Bash(") && HasSuffix(entry, ")")
    ensures !BashArg(entry).1 ==> BashArg(entry).0 == ""
  {
    if BashArg(entry).1 || (HasPrefix(entry, "Bash(") && HasSuffix(entry, ")")) {
      var n := |entry|;
      assert entry[n - 1..] == [entry[n - 1]];
      assert entry == entry[..5] + entry[5..n - 1] + entry[n - 1..];
    }
    assert Bash(arg)[5..|Bash(arg)| - 1] == arg && Bash(arg)[..5] == "Bash(";
  }

  datatype Record = Record(entry: string, reason: string)

  /** verdict gives the reason to prune a Bash argument, or the empty string. */
  predicate Keeps(verdict: string -> string, e: Json) {
    e.Str? && BashArg(e.s).1 ==> verdict(BashArg(e.s).0) == ""
  }

  function Kept(verdict: string -> string, list: seq<Json>): seq<Json> {
    if list == [] then []
    else (if Keeps(verdict, list[0]) then [list[0]] else []) + Kept(verdict, list[1..])
  }

  function Pruned(verdict: string -> string, list: seq<Json>): seq<Record> {
    if list == [] then []
    else
      (if Keeps(verdict, list[0]) then [] else [Record(list[0].s, verdict(BashArg(list[0].s).0))])
      + Pruned(verdict, list[1..])
  }

  /** A slice that stayed empty is nil. */
  function Slice(list: seq<Json>): Json {
    if list == [] then Null else Arr(list)
  }

  function PrunePerms(verdict: string -> string, perms: Fields): Fields {
    var list := ListAt(perms, "allow");
    if Pruned(verdict, list) == [] then perms else perms["allow" := Slice(Kept(verdict, list))]
  }

  /** reviewAndPrune's result. */
  function Prune(verdict: string -> string, doc: Fields): Fields {
    var perms := ObjAt(doc, PERMISSIONS);
    if Pruned(verdict, ListAt(perms, "allow")) == [] then doc
    else doc[PERMISSIONS := Obj(PrunePerms(verdict, perms))]
  }

  lemma NoEntries(verdict: string -> string)
    ensures Kept(verdict, []) == [] && Pruned(verdict, []) == []
  {
  }

  /** One turn of the loop over the allow list. */
  lemma NextEntry(verdict: string -> string, list: seq<Json>, i: nat, kept: seq<Json>, records: seq<Record>)
    requires i < |list|
    ensures var e, k, p := list[i], Kept(verdict, list[i + 1..]), Pruned(verdict, list[i + 1..]);
            if Keeps(verdict, e) then
              kept + Kept(verdict, list[i..]) == kept + [e] + k && Pruned(verdict, list[i..]) == p
            else
              && Kept(verdict, list[i..]) == k
              && records + Pruned(verdict, list[i..]) == records + [Record(e.s, verdict(BashArg(e.s).0))] + p
  {
    hide Keeps, BashArg;
    assert list[i..][0] == list[i] && list[i..][1..] == list[i + 1..];
  }

  ghost function AllowList(doc: Fields): seq<Json> {
    ListAt(ObjAt(doc, PERMISSIONS), "allow")
  }

  /** What may go: a Bash entry with a verdict against its argument. */
  ghost predicate Condemned(verdict: string -> string, e: Json, reason: string) {
    reason != "" && exists arg :: e == Str(Bash(arg)) && reason == verdict(arg)
  }

  /** What pruning comes to, entry by entry: nothing is added, everything but the
      condemned stays, and these are what is on record, with their reasons. */
  ghost predicate PrunedTo(verdict: string -> string, before: seq<Json>, after: seq<Json>, records: seq<Record>) {
    && (forall e :: e in after <==> e in before && forall reason :: !Condemned(verdict, e, reason))
    && (forall e, r :: Record(e, r) in records <==> Str(e) in before && Condemned(verdict, Str(e), r))
  }

  lemma KeepsIff(verdict: string -> string, e: Json)
    ensures Keeps(verdict, e) <==> forall reason :: !Condemned(verdict, e, reason)
    ensures e.Str? ==>
      forall r :: Condemned(verdict, e, r) <==> !Keeps(verdict, e) && r == verdict(BashArg(e.s).0)
  {
    if e.Str? {
      BashArgIff(e.s, BashArg(e.s).0);
      if !Keeps(verdict, e) {
        assert Condemned(verdict, e, verdict(BashArg(e.s).0));
      }
      forall reason | Condemned(verdict, e, reason) ensures !Keeps(verdict, e) && reason == verdict(BashArg(e.s).0) {
        var arg :| e == Str(Bash(arg)) && reason == verdict(arg);
        BashArgIff(e.s, arg);
      }
    }
  }

  lemma {:induction false} RecordsOf(verdict: string -> string, list: seq<Json>, e: string, r: string)
    ensures Record(e, r) in Pruned(verdict, list) <==> Str(e) in list && Condemned(verdict, Str(e), r)
  {
    if list != [] {
      hide Keeps, BashArg, Condemned;
      assert list == [list[0]] + list[1..];
      RecordsOf(verdict, list[1..], e, r);
      KeepsIff(verdict, list[0]);
      KeptStrings(verdict, list[0]);
    }
  }

  lemma KeptStrings(verdict: string -> string, e: Json)
    ensures !Keeps(verdict, e) ==> e.Str?
  {
  }

  lemma PruneMeans(verdict: string -> string, doc: Fields)
    ensures PrunedTo(verdict, AllowList(doc), AllowList(Prune(verdict, doc)), Pruned(verdict, AllowList(doc)))
  {
    hide Kept, Pruned, Keeps, Condemned, Prune;
    var list := AllowList(doc);
    PruneKeeps(verdict, doc, "allow");
    forall e
      ensures e in Kept(verdict, list) <==> e in list && forall reason :: !Condemned(verdict, e, reason)
    {
      KeptIsKept(verdict, list, e);
      KeepsIff(verdict, e);
    }
    forall e, r
      ensures Record(e, r) in Pruned(verdict, list) <==> Str(e) in list && Condemned(verdict, Str(e), r)
    {
      RecordsOf(verdict, list, e, r);
    }
  }

  method ReviewAndPrune(verdict: string -> string, doc: Document?) returns (records: seq<Record>)
    modifies doc
    ensures doc != null ==> PrunedTo(verdict, AllowList(old(doc.fields)), AllowList(doc.fields), records)
    ensures doc == null ==> records == []
    ensures doc != null ==>
      && doc.fields == Prune(verdict, old(doc.fields))
      && records == Pruned(verdict, ListAt(ObjAt(old(doc.fields), PERMISSIONS), "allow"))
  {
    hide Kept, Pruned, PrunedTo;
    records := [];
    if doc == null {
      return;
    }
    PruneMeans(verdict, doc.fields);
    NoEntries(verdict);
    if PERMISSIONS !in doc.fields || !doc.fields[PERMISSIONS].Obj? {
      return;
    }
    var perms := doc.fields[PERMISSIONS].fields;
    var allowList := ListAt(perms, "allow");
    if allowList == [] {
      return;
    }
    var kept: seq<Json> := [];
    assert allowList[0..] == allowList;
    for i := 0 to |allowList|
      invariant doc.fields == old(doc.fields)
      invariant kept + Kept(verdict, allowList[i..]) == Kept(verdict, allowList)
      invariant records + Pruned(verdict, allowList[i..]) == Pruned(verdict, allowList)
    {
      var e := allowList[i];
      NextEntry(verdict, allowList, i, kept, records);
      if !e.Str? {
        kept := kept + [e];
      } else {
        var (arg, isBash) := BashArg(e.s);
        if !isBash {
          kept := kept + [e];
        } else if verdict(arg) != "" {
          records := records + [Record(e.s, verdict(arg))];
        } else {
          kept := kept + [e];
        }
      }
    }
    assert allowList[|allowList|..] == [] && records + [] == records && kept + [] == kept;
    if records == [] {
      return;
    }
    doc.fields := doc.fields[PERMISSIONS := Obj(perms["allow" := Slice(kept)])];
  }

  /** Every position one later, after position 0 if that is to be there too. */
  function Shifted(at: seq<nat>, first: bool): (r: seq<nat>)
    ensures |r| == |at| + if first then 1 else 0
  {
    (if first then [0] else []) + seq(|at|, i requires 0 <= i < |at| => at[i] + 1)
  }

  /** Where the entries that stay stand in the list. */
  function Positions(verdict: string -> string, list: seq<Json>): seq<nat> {
    if list == [] then [] else Shifted(Positions(verdict, list[1..]), Keeps(verdict, list[0]))
  }

  lemma ShiftedAt(at: seq<nat>, first: bool, i: nat)
    requires i < |Shifted(at, first)|
    ensures var off := if first then 1 else 0;
            Shifted(at, first)[i] == if i < off then 0 else at[i - off] + 1
  {
  }

  lemma {:induction false} PositionsIncrease(verdict: string -> string, list: seq<Json>, i: nat, j: nat)
    requires i < j < |Positions(verdict, list)|
    ensures Positions(verdict, list)[i] < Positions(verdict, list)[j]
    decreases |list|
  {
    hide Keeps, Shifted;
    var rest, first := Positions(verdict, list[1..]), Keeps(verdict, list[0]);
    ShiftedAt(rest, first, i);
    ShiftedAt(rest, first, j);
    var off := if first then 1 else 0;
    if i >= off {
      PositionsIncrease(verdict, list[1..], i - off, j - off);
    }
  }

  lemma {:induction false} PositionsHold(verdict: string -> string, list: seq<Json>, i: nat)
    requires i < |Positions(verdict, list)|
    ensures |Positions(verdict, list)| == |Kept(verdict, list)|
    ensures Positions(verdict, list)[i] < |list|
    ensures Kept(verdict, list)[i] == list[Positions(verdict, list)[i]]
  {
    var rest, first := Positions(verdict, list[1..]), Keeps(verdict, list[0]);
    ShiftedAt(rest, first, i);
    hide Shifted, Keeps;
    PositionCount(verdict, list[1..]);
    var off := if first then 1 else 0;
    if i >= off {
      PositionsHold(verdict, list[1..], i - off);
      assert list[1..][rest[i - off]] == list[rest[i - off] + 1];
    }
  }

  lemma {:induction false} PositionCount(verdict: string -> string, list: seq<Json>)
    ensures |Positions(verdict, list)| == |Kept(verdict, list)|
  {
    if list != [] {
      PositionCount(verdict, list[1..]);
    }
  }

  /** Pruning is a stable filter: what stays are the entries at increasing positions,
      all of them kept for a reason, and as many Bash entries go as there are
      records; so nothing that may stay goes. */
  lemma {:induction false} KeptInOrder(verdict: string -> string, list: seq<Json>)
    ensures var at, kept := Positions(verdict, list), Kept(verdict, list);
            && |at| == |kept| == |list| - |Pruned(verdict, list)|
            && (forall i, j :: 0 <= i < j < |at| ==> at[i] < at[j])
            && (forall i :: 0 <= i < |at| ==> at[i] < |list| && kept[i] == list[at[i]])
    ensures forall e :: e in Kept(verdict, list) <==> e in list && Keeps(verdict, e)
  {
    hide Positions, Kept, Pruned, Keeps;
    PositionCount(verdict, list);
    NothingPruned(verdict, list);
    forall i: nat, j: nat | i < j < |Positions(verdict, list)|
      ensures Positions(verdict, list)[i] < Positions(verdict, list)[j]
    {
      PositionsIncrease(verdict, list, i, j);
    }
    forall i: nat | i < |Positions(verdict, list)|
      ensures Positions(verdict, list)[i] < |list| && Kept(verdict, list)[i] == list[Positions(verdict, list)[i]]
    {
      PositionsHold(verdict, list, i);
    }
    forall e ensures e in Kept(verdict, list) <==> e in list && Keeps(verdict, e) {
      KeptIsKept(verdict, list, e);
    }
  }

  /** Everything but the allow list is left alone. */
  lemma PruneKeeps(verdict: string -> string, doc: Fields, key: string)
    ensures key != PERMISSIONS ==>
      (key in Prune(verdict, doc) <==> key in doc) && (key in doc ==> Prune(verdict, doc)[key] == doc[key])
    ensures var p, q := ObjAt(doc, PERMISSIONS), ObjAt(Prune(verdict, doc), PERMISSIONS);
            && (key != "allow" ==> (key in q <==> key in p) && (key in p ==> q[key] == p[key]))
            && ListAt(q, "allow") == Kept(verdict, ListAt(p, "allow"))
  {
    hide Kept, Pruned;
    NothingPruned(verdict, ListAt(ObjAt(doc, PERMISSIONS), "allow"));
  }

  lemma {:induction false} NothingPruned(verdict: string -> string, list: seq<Json>)
    ensures Pruned(verdict, list) == [] <==> Kept(verdict, list) == list
    ensures |Kept(verdict, list)| + |Pruned(verdict, list)| == |list|
  {
    if list != [] {
      NothingPruned(verdict, list[1..]);
      assert list == [list[0]] + list[1..];
    }
  }

  lemma {:induction false} KeptIsKept(verdict: string -> string, list: seq<Json>, e: Json)
    ensures e in Kept(verdict, list) <==> e in list && Keeps(verdict, e)
  {
    if list != [] {
      KeptIsKept(verdict, list[1..], e);
      assert list == [list[0]] + list[1..];
    }
  }

  lemma {:induction false} KeptConcat(verdict: string -> string, a: seq<Json>, b: seq<Json>)
    ensures Kept(verdict, a + b) == Kept(verdict, a) + Kept(verdict, b)
  {
    if a == [] {
      assert a + b == b;
    } else {
      hide Keeps;
      assert (a + b)[1..] == a[1..] + b && (a + b)[0] == a[0];
      KeptConcat(verdict, a[1..], b);
      Regroup(if Keeps(verdict, a[0]) then [a[0]] else [], Kept(verdict, a[1..]), Kept(verdict, b));
    }
  }

  /** The records come in the order of their entries. */
  lemma {:induction false} PrunedConcat(verdict: string -> string, a: seq<Json>, b: seq<Json>)
    ensures Pruned(verdict, a + b) == Pruned(verdict, a) + Pruned(verdict, b)
  {
    if a == [] {
      assert a + b == b;
    } else {
      hide Keeps, BashArg;
      assert (a + b)[1..] == a[1..] + b && (a + b)[0] == a[0];
      PrunedConcat(verdict, a[1..], b);
    }
  }

  lemma {:induction false} KeptOfKept(verdict: string -> string, list: seq<Json>)
    ensures Kept(verdict, Kept(verdict, list)) == Kept(verdict, list)
  {
    if list != [] {
      KeptOfKept(verdict, list[1..]);
      if Keeps(verdict, list[0]) {
        KeptConcat(verdict, [list[0]], Kept(verdict, list[1..]));
        assert Kept(verdict, [list[0]]) == [list[0]];
      } else {
        assert Kept(verdict, list) == Kept(verdict, list[1..]);
      }
    }
  }

  lemma {:induction false} KeptNone(verdict: string -> string, list: seq<Json>)
    requires forall e :: e in list ==> !Keeps(verdict, e)
    ensures Kept(verdict, list) == []
  {
    if list != [] {
      KeptNone(verdict, list[1..]);
    }
  }

  /** A second pruning finds nothing. */
  lemma PruneTwice(verdict: string -> string, doc: Fields)
    ensures var once := Prune(verdict, doc);
            && Prune(verdict, once) == once
            && Pruned(verdict, ListAt(ObjAt(once, PERMISSIONS), "allow")) == []
  {
    hide Kept, Pruned;
    var list := ListAt(ObjAt(doc, PERMISSIONS), "allow");
    PruneKeeps(verdict, doc, "allow");
    KeptOfKept(verdict, list);
    NothingPruned(verdict, Kept(verdict, list));
    NothingPruned(verdict, list);
  }

  // ---- Promote, then prune ----

  /** What a merge puts back after pruning is what pruning takes out again. */
  lemma ListFixpoint(verdict: string -> string, dst: seq<Json>, src: seq<Json>)
    ensures var once := Kept(verdict, MergedList(dst, src));
            && Kept(verdict, MergedList(once, src)) == once
            && (forall s :: s in NewIn(once, src) ==> !Keeps(verdict, Str(s)))
  {
    hide Kept, Keeps;
    var all := MergedList(dst, src);
    var once := Kept(verdict, all);
    var back := NewIn(once, src);
    AddsEachMissingOnceInOrder(Strings(once), src);
    forall s | s in back ensures !Keeps(verdict, Str(s)) {
      MergedHasAll(dst, src, s);
      KeptIsKept(verdict, all, Str(s));
    }
    var entries := Entries(back);
    forall e | e in entries ensures !Keeps(verdict, e) {
      var i :| 0 <= i < |entries| && entries[i] == e;
      assert back[i] in back;
    }
    KeptNone(verdict, entries);
    KeptConcat(verdict, once, entries);
    KeptOfKept(verdict, all);
  }

  /** Buckets other than the first are settled in what a merge was pruned to. */
  lemma OnlyAllowMerges(q: Fields, src: Fields)
    requires forall b, s :: b in ["ask", "deny"] && Str(s) in ListAt(src, b) ==> Str(s) in ListAt(q, b)
    ensures MergeBuckets(q, src, BUCKETS) == MergeBucket(q, src, "allow")
  {
    hide MergedList, NewIn;
    var q1 := MergeBucket(q, src, "allow");
    assert ["allow"][..0] == [] && ["allow", "ask"][..1] == ["allow"] && BUCKETS[..2] == ["allow", "ask"];
    assert MergeBuckets(q, src, []) == q;
    assert MergeBuckets(q, src, ["allow"]) == q1;
    assert MergeBuckets(q, src, ["allow", "ask"]) == MergeBucket(q1, src, "ask");
    BucketSettles(q1, src, "ask");
    BucketSettles(q1, src, "deny");
  }

  lemma BucketSettles(dst: Fields, src: Fields, b: string)
    requires forall s :: Str(s) in ListAt(src, b) ==> Str(s) in ListAt(dst, b)
    ensures MergeBucket(dst, src, b) == dst
  {
    hide MergedList;
    ListSettles(ListAt(dst, b), ListAt(src, b));
    assert ListAt(dst, b) != [] ==> dst[b := Arr(ListAt(dst, b))] == dst;
  }

  /** The state a promotion and a pruning lead to: its lists are settled, and an
      allow list that was pruned is written as a slice. */
  lemma OnceShape(verdict: string -> string, dst: Fields, src: Fields)
    ensures var once := Prune(verdict, Merge(dst, src));
            var q, from := ObjAt(once, PERMISSIONS), ObjAt(src, PERMISSIONS);
            var list := MergedList(ListAt(ObjAt(dst, PERMISSIONS), "allow"), ListAt(from, "allow"));
            && ListAt(q, "allow") == Kept(verdict, list)
            && (Kept(verdict, list) != list ==>
                 PERMISSIONS in once && once[PERMISSIONS] == Obj(q) &&
                   "allow" in q && q["allow"] == Slice(Kept(verdict, list)))
            && forall b, s :: b in ["ask", "deny"] && Str(s) in ListAt(from, b) ==> Str(s) in ListAt(q, b)
  {
    hide MergeBuckets, AddedTo, MergedList, Kept, Pruned;
    var merged := Merge(dst, src);
    var p, from := ObjAt(dst, PERMISSIONS), ObjAt(src, PERMISSIONS);
    MergeKeeps(dst, src, "allow");
    PruneKeeps(verdict, merged, "allow");
    NothingPruned(verdict, ListAt(ObjAt(merged, PERMISSIONS), "allow"));
    forall b, s | b in ["ask", "deny"] && Str(s) in ListAt(from, b)
      ensures Str(s) in ListAt(ObjAt(Prune(verdict, merged), PERMISSIONS), b)
    {
      assert b in BUCKETS && b != "allow";
      MergeKeeps(dst, src, b);
      PruneKeeps(verdict, merged, b);
      MergedHasAll(ListAt(p, b), ListAt(from, b), s);
    }
  }

  /** Something that comes back was pruned the first time. */
  lemma BackWasPruned(verdict: string -> string, dst: seq<Json>, src: seq<Json>)
    requires NewIn(Kept(verdict, MergedList(dst, src)), src) != []
    ensures Kept(verdict, MergedList(dst, src)) != MergedList(dst, src)
  {
    hide Kept, Keeps;
    var all := MergedList(dst, src);
    var once := Kept(verdict, all);
    var s := NewIn(once, src)[0];
    AddsEachMissingOnceInOrder(Strings(once), src);
    assert s in NewIn(once, src);
    MergedHasAll(dst, src, s);
    assert Str(s) !in once;
  }

  lemma NothingBack(q: Fields, src: Fields)
    requires NewIn(ListAt(q, "allow"), ListAt(src, "allow")) == []
    ensures MergeBucket(q, src, "allow") == q
  {
    var list := ListAt(q, "allow");
    hide NewIn;
    assert MergedList(list, ListAt(src, "allow")) == list;
    assert list != [] ==> q["allow" := Arr(list)] == q;
  }

  lemma SomethingBack(verdict: string -> string, q: Fields, src: Fields)
    requires NewIn(ListAt(q, "allow"), ListAt(src, "allow")) != []
    requires Kept(verdict, MergedList(ListAt(q, "allow"), ListAt(src, "allow"))) == ListAt(q, "allow")
    requires "allow" in q && q["allow"] == Slice(ListAt(q, "allow"))
    ensures MergeBucket(q, src, "allow") != map[]
    ensures PrunePerms(verdict, MergeBucket(q, src, "allow")) == q
    ensures Pruned(verdict, ListAt(MergeBucket(q, src, "allow"), "allow")) != []
  {
    var d, list := ListAt(q, "allow"), MergedList(ListAt(q, "allow"), ListAt(src, "allow"));
    assert |list| > |d|;
    var q1 := MergeBucket(q, src, "allow");
    assert ListAt(src, "allow") != [];
    hide MergedList, NewIn, Kept, Pruned;
    NothingPruned(verdict, list);
    assert q1 == q["allow" := Arr(list)];
    assert "allow" in q1;
    assert q1["allow" := Slice(d)] == q;
  }

  /** Promoting the same worktree again and pruning again changes nothing. */
  lemma PromoteThenPruneIsAFixpoint(verdict: string -> string, dst: Fields, src: Fields)
    ensures var once := Prune(verdict, Merge(dst, src));
            Prune(verdict, Merge(once, src)) == once
  {
    hide MergeBuckets, MergeBucket, AddedTo, MergedList, NewIn, Kept, Pruned, PrunePerms;
    var once := Prune(verdict, Merge(dst, src));
    PruneTwice(verdict, Merge(dst, src));
    if PERMISSIONS in src && src[PERMISSIONS].Obj? {
      var p, q, from := ObjAt(dst, PERMISSIONS), ObjAt(once, PERMISSIONS), ObjAt(src, PERMISSIONS);
      var d, f := ListAt(p, "allow"), ListAt(from, "allow");
      OnceShape(verdict, dst, src);
      OnlyAllowMerges(q, from);
      ListFixpoint(verdict, d, f);
      if NewIn(ListAt(q, "allow"), f) == [] {
        NothingBack(q, from);
        assert q != map[] ==> once[PERMISSIONS := Obj(q)] == once;
      } else {
        BackWasPruned(verdict, d, f);
        SomethingBack(verdict, q, from);
        var q1 := MergeBucket(q, from, "allow");
        assert Merge(once, src) == once[PERMISSIONS := Obj(q1)];
        assert once[PERMISSIONS := Obj(q1)][PERMISSIONS := Obj(q)] == once;
      }
    }
  }
}
