/**
 Taking the files out of a tree of query variables: each file is replaced by null, and its
 place in the tree is recorded under the file's number.
*/
module Upload {
  import opened Wrappers
  import opened Decimal

  type FileId = nat

  /** A variables tree. An object's entries are in the order `Object.entries` gives them. */
  datatype Value =
    | File(file: FileId)
    | Null
    | Scalar(text: string)
    | Array(items: seq<Value>)
    | Object(entries: seq<(string, Value)>)

  // ------------------------------------------------------------------ arrays and objects

  function Arity(v: Value): nat {
    match v
    case Array(items) => |items|
    case Object(entries) => |entries|
    case _ => 0
  }

  function Child(v: Value, i: nat): (c: Value)
    requires i < Arity(v)
    ensures c < v
  {
    if v.Array? then v.items[i]
    else
      assert v.entries[i] in v.entries;
      v.entries[i].1
  }

  /** What the code appends to the path for this child. */
  function Label(v: Value, i: nat): string
    requires i < Arity(v)
  {
    if v.Array? then ToString(i) else v.entries[i].0
  }

  /** The same node with its first children replaced. */
  function WithChildren(v: Value, children: seq<Value>): (r: Value)
    requires |children| <= Arity(v)
    ensures Arity(r) == Arity(v) && (forall i :: 0 <= i < Arity(v) ==> Label(r, i) == Label(v, i))
    ensures forall i :: 0 <= i < Arity(v) ==> Child(r, i) == if i < |children| then children[i] else Child(v, i)
  {
    match v
    case Array(items) => Array(children + items[|children|..])
    case Object(entries) =>
      Object(seq(|entries|, i requires 0 <= i < |entries| =>
        if i < |children| then (entries[i].0, children[i]) else entries[i]))
    case _ => v
  }

  /** Keys are different within each object. */
  ghost predicate WellFormed(v: Value) {
    && (v.Object? ==> forall i, j :: 0 <= i < j < |v.entries| ==> v.entries[i].0 != v.entries[j].0)
    && forall i :: 0 <= i < Arity(v) ==> WellFormed(Child(v, i))
  }

  lemma LabelsDiffer(v: Value, i: nat, j: nat)
    requires WellFormed(v) && i < Arity(v) && j < Arity(v) && Label(v, i) == Label(v, j)
    ensures i == j
  {
    if v.Array? {
      ToStringInjective(i, j);
    }
  }

  lemma SameNode(v: Value, w: Value)
    requires v.Array? == w.Array? && v.Object? == w.Object? && Arity(v) == Arity(w)
    requires Arity(v) == 0 ==> v == w
    requires forall i :: 0 <= i < Arity(v) ==> Label(v, i) == Label(w, i) && Child(v, i) == Child(w, i)
    ensures v == w
  {
    if v.Array? && Arity(v) > 0 {
      assert forall i :: 0 <= i < Arity(v) ==> v.items[i] == Child(v, i) && w.items[i] == Child(w, i);
      assert v.items == w.items;
    } else if v.Object? && Arity(v) > 0 {
      forall i | 0 <= i < Arity(v) ensures v.entries[i] == w.entries[i] {
        assert Label(v, i) == v.entries[i].0 && Child(v, i) == v.entries[i].1;
        assert Label(w, i) == w.entries[i].0 && Child(w, i) == w.entries[i].1;
      }
      assert v.entries == w.entries;
    }
  }

  // ----------------------------------------------------------------- what is taken out

  datatype Found = Found(path: seq<string>, file: FileId)

  function Under(name: string, found: seq<Found>): (r: seq<Found>)
    ensures |r| == |found|
    ensures forall k :: 0 <= k < |r| ==> r[k] == Found([name] + found[k].path, found[k].file)
  {
    seq(|found|, k requires 0 <= k < |found| => Found([name] + found[k].path, found[k].file))
  }

  /** The files of a tree, in the order they are met. */
  function FilesIn(v: Value): seq<Found>
    decreases v, Arity(v) + 1
  {
    if v.File? then [Found([], v.file)] else FilesOfFirst(v, Arity(v))
  }

  function FilesOfFirst(v: Value, n: nat): seq<Found>
    requires n <= Arity(v)
    decreases v, n
  {
    if n == 0 then [] else FilesOfFirst(v, n - 1) + Under(Label(v, n - 1), FilesIn(Child(v, n - 1)))
  }

  /** The tree without its files. */
  function Stripped(v: Value): Value
    decreases v, Arity(v) + 1
  {
    if v.File? then Null else WithChildren(v, StrippedFirst(v, Arity(v)))
  }

  function StrippedFirst(v: Value, n: nat): (r: seq<Value>)
    requires n <= Arity(v)
    ensures |r| == n && forall i :: 0 <= i < n ==> r[i] == Stripped(Child(v, i))
    decreases v, n
  {
    if n == 0 then [] else StrippedFirst(v, n - 1) + [Stripped(Child(v, n - 1))]
  }

  /** The written form of a path. */
  function Dotted(path: string, labels: seq<string>): string
    decreases |labels|
  {
    if labels == [] then path else Dotted(path + "." + labels[0], labels[1..])
  }

  /** The map after these files have been numbered from `start` on. */
  function Numbered(m: map<string, seq<string>>, start: nat, path: string, found: seq<Found>)
    : map<string, seq<string>>
  {
    if found == [] then m
    else
      var n := |found| - 1;
      Numbered(m, start, path, found[..n])[ToString(start + n) := [Dotted(path, found[n].path)]]
  }

  function FileIds(found: seq<Found>): (r: seq<FileId>)
    ensures |r| == |found| && forall k :: 0 <= k < |r| ==> r[k] == found[k].file
  {
    seq(|found|, k requires 0 <= k < |found| => found[k].file)
  }

  lemma {:induction false} NumberedAdds(
    m: map<string, seq<string>>, start: nat, path: string, a: seq<Found>, b: seq<Found>
  )
    ensures Numbered(Numbered(m, start, path, a), start + |a|, path, b) == Numbered(m, start, path, a + b)
    decreases |b|
  {
    if b == [] {
      assert a + b == a;
    } else {
      var n := |b| - 1;
      NumberedAdds(m, start, path, a, b[..n]);
      assert (a + b)[..|a| + n] == a + b[..n];
    }
  }

  lemma {:induction false} NumberedUnder(
    m: map<string, seq<string>>, start: nat, path: string, name: string, found: seq<Found>
  )
    ensures Numbered(m, start, path + "." + name, found) == Numbered(m, start, path, Under(name, found))
  {
    if found != [] {
      var n := |found| - 1;
      NumberedUnder(m, start, path, name, found[..n]);
      assert Under(name, found)[..n] == Under(name, found[..n]);
      assert ([name] + found[n].path)[1..] == found[n].path;
    }
  }

  /** From the first lists to the second, these files were taken at these paths. */
  ghost predicate Taken(
    files: seq<FileId>, numbers: map<string, seq<string>>, filesNow: seq<FileId>, numbersNow: map<string, seq<string>>,
    path: string, found: seq<Found>
  ) {
    filesNow == files + FileIds(found) && numbersNow == Numbered(numbers, |files|, path, found)
  }

  lemma TakenOne(files: seq<FileId>, numbers: map<string, seq<string>>, path: string, file: FileId)
    ensures Taken(files, numbers, files + [file], numbers[ToString(|files|) := [path]], path, [Found([], file)])
  {
    assert [Found([], file)][..0] == [];
  }

  lemma TakenUnder(
    f0: seq<FileId>, m0: map<string, seq<string>>, f1: seq<FileId>, m1: map<string, seq<string>>,
    f2: seq<FileId>, m2: map<string, seq<string>>, path: string, before: seq<Found>, name: string, found: seq<Found>
  )
    requires Taken(f0, m0, f1, m1, path, before)
    requires Taken(f1, m1, f2, m2, path + "." + name, found)
    ensures Taken(f0, m0, f2, m2, path, before + Under(name, found))
  {
    NumberedUnder(m1, |f1|, path, name, found);
    NumberedAdds(m0, |f0|, path, before, Under(name, found));
    FileIdsUnder(f0, before, name, found);
  }

  lemma FileIdsUnder(files: seq<FileId>, before: seq<Found>, name: string, found: seq<Found>)
    ensures files + FileIds(before) + FileIds(found) == files + FileIds(before + Under(name, found))
  {
  }

  class Extractor {
    var files: seq<FileId>
    var numbers: map<string, seq<string>>

    constructor ()
      ensures files == [] && numbers == map[]
    {
      files, numbers := [], map[];
    }

    /** `extractFiles`. */
    method Extract(v: Value, path: string) returns (r: Value)
      modifies this
      ensures r == Stripped(v)
      ensures Taken(old(files), old(numbers), files, numbers, path, FilesIn(v))
      decreases v
    {
      if v.File? {
        var index := |files|;
        files := files + [v.file];
        numbers := numbers[ToString(index) := [path]];
        TakenOne(old(files), old(numbers), path, v.file);
        return Null;
      }
      var children := [];
      for i := 0 to Arity(v)
        invariant children == StrippedFirst(v, i)
        invariant Taken(old(files), old(numbers), files, numbers, path, FilesOfFirst(v, i))
      {
        ghost var (filesBefore, numbersBefore) := (files, numbers);
        var child := Extract(Child(v, i), path + "." + Label(v, i));
        children := children + [child];
        TakenUnder(old(files), old(numbers), filesBefore, numbersBefore, files, numbers, path,
                   FilesOfFirst(v, i), Label(v, i), FilesIn(Child(v, i)));
      }
      r := WithChildren(v, children);
    }

    /** The assembly in `executeUpload`: the operations, the map, and the numbered files. */
    method Assemble(variables: Value) returns (operations: Value, parts: seq<(string, FileId)>)
      requires files == [] && numbers == map[]
      modifies this
      ensures operations == Stripped(variables)
      ensures numbers == Numbered(map[], 0, "variables", FilesIn(variables))
      ensures parts == NumberedParts(FileIds(FilesIn(variables)))
    {
      operations := Extract(variables, "variables");
      assert [] + FileIds(FilesIn(variables)) == FileIds(FilesIn(variables));
      parts := AppendFiles(files);
    }

    static method AppendFiles(files: seq<FileId>) returns (parts: seq<(string, FileId)>)
      ensures parts == NumberedParts(files)
    {
      parts := [];
      for i := 0 to |files|
        invariant |parts| == i
        invariant forall j :: 0 <= j < i ==> parts[j] == (ToString(j), files[j])
      {
        parts := parts + [(ToString(i), files[i])];
      }
    }
  }

  /** The files under their numbers, as the form data holds them. */
  function NumberedParts(files: seq<FileId>): (r: seq<(string, FileId)>)
    ensures |r| == |files| && forall i :: 0 <= i < |r| ==> r[i] == (ToString(i), files[i])
  {
    seq(|files|, i requires 0 <= i < |files| => (ToString(i), files[i]))
  }

  // ------------------------------------------------------------------- what it all means

  /** The value at a path, as the receiving side resolves it. */
  function At(v: Value, path: seq<string>): Option<Value>
    decreases |path|
  {
    if path == [] then Some(v)
    else
      var i := IndexOf(v, path[0], Arity(v));
      if i < Arity(v) then At(Child(v, i), path[1..]) else None
  }

  /** The first child, of the last `left`, with this label; the number of children if none. */
  function IndexOf(v: Value, name: string, left: nat): (i: nat)
    requires left <= Arity(v)
    ensures Arity(v) - left <= i <= Arity(v)
    ensures i < Arity(v) ==> Label(v, i) == name
    ensures forall j :: Arity(v) - left <= j < i ==> Label(v, j) != name
  {
    if left == 0 || Label(v, Arity(v) - left) == name then Arity(v) - left
    else IndexOf(v, name, left - 1)
  }

  /** Putting a file at a path. */
  function PutAt(v: Value, path: seq<string>, file: FileId): Value
    decreases |path|
  {
    if path == [] then File(file)
    else
      var i := IndexOf(v, path[0], Arity(v));
      if i == Arity(v) then v else WithChild(v, i, PutAt(Child(v, i), path[1..], file))
  }

  function WithChild(v: Value, i: nat, child: Value): (r: Value)
    requires i < Arity(v)
    ensures Arity(r) == Arity(v) && r.Array? == v.Array? && r.Object? == v.Object?
    ensures forall j :: 0 <= j < Arity(v) ==> Label(r, j) == Label(v, j)
    ensures forall j :: 0 <= j < Arity(v) ==> Child(r, j) == if j == i then child else Child(v, j)
  {
    if v.Array? then Array(v.items[i := child]) else Object(v.entries[i := (v.entries[i].0, child)])
  }

  function PutAll(v: Value, found: seq<Found>): Value {
    if found == [] then v
    else
      var n := |found| - 1;
      PutAt(PutAll(v, found[..n]), found[n].path, found[n].file)
  }

  lemma LastOfBoth(a: seq<Found>, b: seq<Found>)
    requires b != []
    ensures a + b == (a + b[..|b| - 1]) + [b[|b| - 1]]
  {
  }

  lemma PutOneMore(v: Value, found: seq<Found>, f: Found)
    ensures PutAll(v, found + [f]) == PutAt(PutAll(v, found), f.path, f.file)
  {
    assert (found + [f])[..|found|] == found;
  }

  lemma {:induction false} PutAllAdds(v: Value, a: seq<Found>, b: seq<Found>)
    ensures PutAll(PutAll(v, a), b) == PutAll(v, a + b)
    decreases |b|
  {
    if b == [] {
      assert a + b == a;
    } else {
      var (before, last) := (b[..|b| - 1], b[|b| - 1]);
      PutAllAdds(v, a, before);
      PutOneMore(v, a + before, last);
      LastOfBoth(a, b);
    }
  }

  ghost predicate DistinctLabels(v: Value) {
    forall i, j :: 0 <= i < j < Arity(v) ==> Label(v, i) != Label(v, j)
  }

  lemma WellFormedLabels(v: Value)
    requires WellFormed(v)
    ensures DistinctLabels(v)
  {
    forall i, j | 0 <= i < j < Arity(v) ensures Label(v, i) != Label(v, j) {
      if Label(v, i) == Label(v, j) {
        LabelsDiffer(v, i, j);
      }
    }
  }

  /** Files put back under one child only change that child. */
  lemma {:induction false} PutAllUnder(v: Value, i: nat, found: seq<Found>)
    requires DistinctLabels(v) && i < Arity(v)
    ensures PutAll(v, Under(Label(v, i), found)) == WithChild(v, i, PutAll(Child(v, i), found))
    decreases |found|
  {
    if found == [] {
      SameNode(WithChild(v, i, Child(v, i)), v);
    } else {
      var n := |found| - 1;
      var under := Under(Label(v, i), found);
      PutAllUnder(v, i, found[..n]);
      assert under[..n] == Under(Label(v, i), found[..n]);
      var w := PutAll(v, under[..n]);
      assert IndexOf(w, Label(v, i), Arity(w)) == i;
      assert under[n].path[1..] == found[n].path;
      SameNode(PutAll(v, under), WithChild(v, i, PutAll(Child(v, i), found)));
    }
  }

  /** Putting every file back at its recorded path rebuilds the variables. */
  lemma {:induction false} PuttingBackRebuilds(v: Value)
    requires WellFormed(v)
    ensures PutAll(Stripped(v), FilesIn(v)) == v
    decreases v, Arity(v) + 1
  {
    if !v.File? {
      PuttingBackFirst(v, Arity(v));
      SameNode(PutAll(Stripped(v), FilesIn(v)), v);
    } else {
      assert [Found([], v.file)][..0] == [];
    }
  }

  /** The node `v` with its files put back in its first `n` children. */
  ghost predicate PutBackFirst(v: Value, n: nat, w: Value) {
    && w.Array? == v.Array? && w.Object? == v.Object? && Arity(w) == Arity(v)
    && (Arity(v) == 0 ==> w == v)
    && (forall i :: 0 <= i < Arity(v) ==> Label(w, i) == Label(v, i))
    && (forall i :: 0 <= i < Arity(v) ==> Child(w, i) == if i < n then Child(v, i) else Stripped(Child(v, i)))
  }

  lemma {:induction false} PuttingBackFirst(v: Value, n: nat)
    requires WellFormed(v) && !v.File? && n <= Arity(v)
    ensures PutBackFirst(v, n, PutAll(Stripped(v), FilesOfFirst(v, n)))
    decreases v, n
  {
    if n == 0 {
      NothingPutBack(v);
    } else {
      PuttingBackFirst(v, n - 1);
      PuttingBackRebuilds(Child(v, n - 1));
      PutBackNext(v, n - 1, FilesOfFirst(v, n - 1), FilesIn(Child(v, n - 1)));
      FilesOfLast(v, n);
    }
  }

  lemma FilesOfLast(v: Value, n: nat)
    requires 0 < n <= Arity(v)
    ensures FilesOfFirst(v, n) == FilesOfFirst(v, n - 1) + Under(Label(v, n - 1), FilesIn(Child(v, n - 1)))
  {
  }

  lemma NothingPutBack(v: Value)
    requires !v.File?
    ensures PutBackFirst(v, 0, Stripped(v))
  {
  }

  lemma PutBackNext(v: Value, n: nat, before: seq<Found>, found: seq<Found>)
    requires WellFormed(v) && n < Arity(v) && PutBackFirst(v, n, PutAll(Stripped(v), before))
    requires PutAll(Stripped(Child(v, n)), found) == Child(v, n)
    ensures PutBackFirst(v, n + 1, PutAll(Stripped(v), before + Under(Label(v, n), found)))
  {
    var w := PutAll(Stripped(v), before);
    WellFormedLabels(v);
    PutAllUnder(w, n, found);
    PutAllAdds(Stripped(v), before, Under(Label(v, n), found));
  }

  // ------------------------------------------------------------- where the files are found

  lemma InUnder(name: string, found: seq<Found>, path: seq<string>, file: FileId)
    ensures Found(path, file) in Under(name, found) <==>
      path != [] && path[0] == name && Found(path[1..], file) in found
  {
    if k :| 0 <= k < |found| && Under(name, found)[k] == Found(path, file) {
      assert path[1..] == found[k].path;
      assert Found(path[1..], file) == found[k];
    }
    if path != [] && path[0] == name && Found(path[1..], file) in found {
      var k :| 0 <= k < |found| && found[k] == Found(path[1..], file);
      assert path == [name] + path[1..];
      assert Under(name, found)[k] == Found(path, file);
    }
  }

  lemma {:induction false} FoundUnder(v: Value, n: nat, path: seq<string>, file: FileId)
    requires n <= Arity(v)
    ensures Found(path, file) in FilesOfFirst(v, n) <==>
      exists i :: 0 <= i < n && path != [] && path[0] == Label(v, i) && Found(path[1..], file) in FilesIn(Child(v, i))
  {
    if n > 0 {
      FoundUnder(v, n - 1, path, file);
      InUnder(Label(v, n - 1), FilesIn(Child(v, n - 1)), path, file);
    }
  }

  /** One step down: an element of an array is at its index, in decimal, and an entry of an object at its
      key. */
  lemma OneStepDown(v: Value, i: nat)
    requires WellFormed(v)
    ensures v.Array? && i < |v.items| ==> At(v, [ToString(i)]) == Some(v.items[i])
    ensures v.Object? && i < |v.entries| ==> At(v, [v.entries[i].0]) == Some(v.entries[i].1)
  {
    if i < Arity(v) {
      WellFormedLabels(v);
      var path := [Label(v, i)];
      assert IndexOf(v, path[0], Arity(v)) == i && path[1..] == [];
      assert At(v, path) == At(Child(v, i), []);
    }
  }

  /** A file is recorded at a path exactly when that is where it is. */
  lemma {:induction false} RecordedWhereItIs(v: Value, path: seq<string>, file: FileId)
    requires WellFormed(v)
    ensures Found(path, file) in FilesIn(v) <==> At(v, path) == Some(File(file))
    decreases |path|
  {
    if !v.File? {
      FoundUnder(v, Arity(v), path, file);
      if path != [] {
        var i := IndexOf(v, path[0], Arity(v));
        WellFormedLabels(v);
        if i < Arity(v) {
          RecordedWhereItIs(Child(v, i), path[1..], file);
        }
      }
    } else if path != [] {
      assert IndexOf(v, path[0], 0) == 0;
    }
  }

  /** No file is left behind. */
  lemma {:induction false} NoFileIsLeft(v: Value, path: seq<string>)
    ensures At(Stripped(v), path).Some? ==> !At(Stripped(v), path).value.File?
    decreases |path|
  {
    if path != [] && !v.File? {
      var i := IndexOf(Stripped(v), path[0], Arity(v));
      if i < Arity(v) {
        NoFileIsLeft(Child(v, i), path[1..]);
      }
    }
  }

  /** What is left at each path: null where there was a file, and any other leaf as it was. */
  lemma {:induction false} LeftAt(v: Value, path: seq<string>)
    requires At(v, path).Some? && Arity(At(v, path).value) == 0
    ensures At(Stripped(v), path) == Some(if At(v, path).value.File? then Null else At(v, path).value)
    decreases |path|
  {
    if path != [] {
      var i := IndexOf(v, path[0], Arity(v));
      assert !v.File? && i < Arity(v);
      SameIndex(v, path[0], Arity(v));
      LeftAt(Child(v, i), path[1..]);
    }
  }

  lemma {:induction false} SameIndex(v: Value, name: string, left: nat)
    requires !v.File? && left <= Arity(v)
    ensures Arity(Stripped(v)) == Arity(v) && IndexOf(Stripped(v), name, left) == IndexOf(v, name, left)
  {
    if left > 0 {
      SameIndex(v, name, left - 1);
    }
  }

  ghost predicate DistinctPaths(found: seq<Found>) {
    forall j, k :: 0 <= j < k < |found| ==> found[j].path != found[k].path
  }

  lemma {:induction false} PathsDiffer(v: Value)
    requires WellFormed(v)
    ensures DistinctPaths(FilesIn(v))
    decreases v, Arity(v) + 1
  {
    if !v.File? {
      PathsOfFirstDiffer(v, Arity(v));
    }
  }

  lemma {:induction false} PathsOfFirstDiffer(v: Value, n: nat)
    requires WellFormed(v) && n <= Arity(v)
    ensures DistinctPaths(FilesOfFirst(v, n))
    decreases v, n
  {
    if n > 0 {
      PathsOfFirstDiffer(v, n - 1);
      PathsDiffer(Child(v, n - 1));
      var (before, found) := (FilesOfFirst(v, n - 1), FilesIn(Child(v, n - 1)));
      var under := Under(Label(v, n - 1), found);
      forall j, k | 0 <= j < |before| && 0 <= k < |under| ensures before[j].path != under[k].path {
        FoundUnder(v, n - 1, before[j].path, before[j].file);
        WellFormedLabels(v);
        assert before[j] in before;
      }
      forall j, k | 0 <= j < k < |under| ensures under[j].path != under[k].path {
        assert under[j].path[1..] == found[j].path && under[k].path[1..] == found[k].path;
      }
    }
  }

  // ------------------------------------------------------------------ the written paths

  predicate DotFree(s: string) {
    '.' !in s
  }

  /** No key in the tree has a dot in it. */
  ghost predicate DotFreeKeys(v: Value) {
    && (v.Object? ==> forall i :: 0 <= i < Arity(v) ==> DotFree(Label(v, i)))
    && forall i :: 0 <= i < Arity(v) ==> DotFreeKeys(Child(v, i))
  }

  /** Cutting a written path at its dots. */
  function Split(s: string): (parts: seq<string>)
    ensures parts != []
  {
    if s == [] then [[]]
    else
      var rest := Split(s[1..]);
      if s[0] == '.' then [[]] + rest else [[s[0]] + rest[0]] + rest[1..]
  }

  lemma {:induction false} SplitAtFirstDot(a: string, rest: string)
    requires DotFree(a)
    ensures Split(a + "." + rest) == [a] + Split(rest)
  {
    var s := a + "." + rest;
    if a == [] {
      assert s[1..] == rest;
    } else {
      SplitAtFirstDot(a[1..], rest);
      assert s[1..] == a[1..] + "." + rest;
      assert [a[0]] + a[1..] == a;
    }
  }

  lemma {:induction false} SplitDotFree(a: string)
    requires DotFree(a)
    ensures Split(a) == [a]
  {
    if a != [] {
      SplitDotFree(a[1..]);
      assert [a[0]] + a[1..] == a;
    }
  }

  /** A path with no dot in its labels is read back from its written form. */
  lemma {:induction false} SplitDotted(path: string, labels: seq<string>)
    requires DotFree(path) && forall k :: 0 <= k < |labels| ==> DotFree(labels[k])
    ensures Split(Dotted(path, labels)) == [path] + labels
    decreases |labels|
  {
    if labels == [] {
      SplitDotFree(path);
    } else {
      DottedStarts(path, labels);
      SplitAtFirstDot(path, Dotted(labels[0], labels[1..]));
      SplitDotted(labels[0], labels[1..]);
      assert [labels[0]] + labels[1..] == labels;
    }
  }

  lemma {:induction false} DottedStarts(path: string, labels: seq<string>)
    requires labels != []
    ensures Dotted(path, labels) == path + "." + Dotted(labels[0], labels[1..])
  {
    DottedPrefix(path + ".", labels[0], labels[1..]);
    assert path + "." + labels[0] == (path + ".") + labels[0];
  }

  lemma {:induction false} DottedPrefix(start: string, path: string, labels: seq<string>)
    ensures Dotted(start + path, labels) == start + Dotted(path, labels)
    decreases |labels|
  {
    if labels != [] {
      DottedPrefix(start, path + "." + labels[0], labels[1..]);
      assert start + path + "." + labels[0] == start + (path + "." + labels[0]);
    }
  }

  lemma {:induction false} PathsAreDotFree(v: Value, f: Found)
    requires DotFreeKeys(v) && f in FilesIn(v)
    ensures forall k :: 0 <= k < |f.path| ==> DotFree(f.path[k])
    decreases |f.path|
  {
    if !v.File? {
      FoundUnder(v, Arity(v), f.path, f.file);
      var i :| 0 <= i < Arity(v) && f.path != [] && f.path[0] == Label(v, i)
        && Found(f.path[1..], f.file) in FilesIn(Child(v, i));
      PathsAreDotFree(Child(v, i), Found(f.path[1..], f.file));
      if v.Array? {
        assert forall k :: 0 <= k < |ToString(i)| ==> IsDigit(ToString(i)[k]);
      }
      assert forall k :: 0 < k < |f.path| ==> f.path[k] == f.path[1..][k - 1];
    }
  }

  // -------------------------------------------------------------------- the whole upload

  ghost predicate IsNumeralBelow(s: string, n: nat) {
    exists i :: 0 <= i < n && s == ToString(i)
  }

  /** The numbers used are exactly 0 to n-1. */
  lemma {:induction false} NumbersAreZeroToN(path: string, found: seq<Found>, k: string)
    ensures k in Numbered(map[], 0, path, found) <==> IsNumeralBelow(k, |found|)
    decreases |found|
  {
    if found != [] {
      var n := |found| - 1;
      NumbersAreZeroToN(path, found[..n], k);
      if IsNumeralBelow(k, |found|) {
        var i :| 0 <= i < |found| && k == ToString(i);
        assert i == n || IsNumeralBelow(k, n);
      }
      if IsNumeralBelow(k, n) {
        var i :| 0 <= i < n && k == ToString(i);
        assert 0 <= i < |found|;
      }
      assert k == ToString(n) ==> IsNumeralBelow(k, |found|);
    }
  }

  /** The number `i` belongs to the one path of the file met as number `i`. */
  lemma {:induction false} NumberBelongsToPath(path: string, found: seq<Found>, i: nat)
    requires i < |found|
    ensures ToString(i) in Numbered(map[], 0, path, found)
    ensures Numbered(map[], 0, path, found)[ToString(i)] == [Dotted(path, found[i].path)]
    decreases |found|
  {
    var n := |found| - 1;
    if i < n {
      NumberBelongsToPath(path, found[..n], i);
      if ToString(i) == ToString(n) {
        ToStringInjective(i, n);
      }
    }
  }

  /** What the receiving side reads from the map and the numbered parts. */
  function Received(numbers: map<string, seq<string>>, parts: seq<(string, FileId)>): seq<Found>
    requires forall i :: 0 <= i < |parts| ==> parts[i].0 in numbers && numbers[parts[i].0] != []
  {
    seq(|parts|, i requires 0 <= i < |parts| => Found(Split(numbers[parts[i].0][0])[1..], parts[i].1))
  }

  /** When no key has a dot in it, the written paths differ, and the receiving side rebuilds
      the variables from the operations, the map and the parts. */
  lemma UploadRoundTrip(v: Value)
    requires WellFormed(v) && DotFreeKeys(v)
    ensures
      var numbers := Numbered(map[], 0, "variables", FilesIn(v));
      var parts := NumberedParts(FileIds(FilesIn(v)));
      && (forall i :: 0 <= i < |parts| ==> parts[i].0 in numbers && |numbers[parts[i].0]| == 1)
      && (forall i, j :: 0 <= i < j < |parts| ==> numbers[parts[i].0] != numbers[parts[j].0])
      && PutAll(Stripped(v), Received(numbers, parts)) == v
  {
    var found := FilesIn(v);
    var numbers := Numbered(map[], 0, "variables", found);
    var parts := NumberedParts(FileIds(found));
    forall i | 0 <= i < |parts| ensures parts[i].0 in numbers && numbers[parts[i].0] == [Dotted("variables", found[i].path)] {
      NumberBelongsToPath("variables", found, i);
    }
    PathsDiffer(v);
    forall i | 0 <= i < |parts| ensures Split(numbers[parts[i].0][0])[1..] == found[i].path {
      PathReadBack(v, i);
    }
    assert Received(numbers, parts) == found;
    PuttingBackRebuilds(v);
  }

  lemma PathReadBack(v: Value, i: nat)
    requires DotFreeKeys(v) && i < |FilesIn(v)|
    ensures Split(Dotted("variables", FilesIn(v)[i].path))[1..] == FilesIn(v)[i].path
  {
    PathsAreDotFree(v, FilesIn(v)[i]);
    SplitDotted("variables", FilesIn(v)[i].path);
  }

  /** The written paths of a tree's files differ. */
  ghost predicate WrittenPathsDiffer(v: Value, path: string) {
    forall i, j :: 0 <= i < j < |FilesIn(v)| ==> Dotted(path, FilesIn(v)[i].path) != Dotted(path, FilesIn(v)[j].path)
  }

  /** Every key in the tree is this one or has no dot in it. */
  ghost predicate KeysAre(v: Value, key: string) {
    && (v.Object? ==> forall i :: 0 <= i < Arity(v) ==> Label(v, i) == key || DotFree(Label(v, i)))
    && forall i :: 0 <= i < Arity(v) ==> KeysAre(Child(v, i), key)
  }

  lemma {:induction false} KeysWithoutDots(v: Value, key: string)
    requires KeysAre(v, key) && DotFree(key)
    ensures DotFreeKeys(v)
  {
    forall i | 0 <= i < Arity(v) ensures DotFreeKeys(Child(v, i)) {
      KeysWithoutDots(Child(v, i), key);
    }
  }

  /** Putting the parts of a string together again. */
  lemma {:induction false} JoinSplit(s: string)
    ensures Dotted(Split(s)[0], Split(s)[1..]) == s
  {
    if s != [] {
      var rest := Split(s[1..]);
      JoinSplit(s[1..]);
      if s[0] == '.' {
        DottedStarts([], rest);
        assert Split(s)[1..] == rest;
      } else {
        DottedPrefix([s[0]], rest[0], rest[1..]);
        assert Split(s)[1..] == rest[1..];
      }
    }
  }

  lemma {:induction false} PartsAreDotFree(s: string)
    ensures forall k :: 0 <= k < |Split(s)| ==> DotFree(Split(s)[k])
    ensures '.' in s ==> |Split(s)| > 1
  {
    if s != [] {
      PartsAreDotFree(s[1..]);
    }
  }

  /** A file at the end of a path of objects. */
  function Nest(path: seq<string>, file: FileId): Value {
    if path == [] then File(file) else Object([(path[0], Nest(path[1..], file))])
  }

  lemma {:induction false} NestHasOneFile(path: seq<string>, file: FileId, key: string)
    requires forall k :: 0 <= k < |path| ==> DotFree(path[k])
    ensures WellFormed(Nest(path, file)) && KeysAre(Nest(path, file), key)
    ensures FilesIn(Nest(path, file)) == [Found(path, file)]
  {
    if path != [] {
      var (v, inner) := (Nest(path, file), Nest(path[1..], file));
      NestHasOneFile(path[1..], file, key);
      assert Arity(v) == 1 && Child(v, 0) == inner && Label(v, 0) == path[0];
      assert FilesOfFirst(v, 0) == [];
      assert FilesOfFirst(v, 1) == [] + Under(path[0], [Found(path[1..], file)]);
      assert [path[0]] + path[1..] == path;
      assert Under(path[0], [Found(path[1..], file)]) == [Found(path, file)];
    }
  }

  /** A file under the key, and one under the parts of the key. */
  function Collision(key: string): Value {
    Object([(key, File(0)), (Split(key)[0], Nest(Split(key)[1..], 1))])
  }

  lemma CollisionCollides(key: string, path: string)
    requires !DotFree(key)
    ensures WellFormed(Collision(key)) && KeysAre(Collision(key), key)
    ensures FilesIn(Collision(key)) == [Found([key], 0), Found(Split(key), 1)]
    ensures Dotted(path, [key]) == Dotted(path, Split(key))
  {
    var (v, parts) := (Collision(key), Split(key));
    PartsAreDotFree(key);
    NestHasOneFile(parts[1..], 1, key);
    assert Arity(v) == 2 && Child(v, 0) == File(0) && Child(v, 1) == Nest(parts[1..], 1);
    assert FilesOfFirst(v, 0) == [] && FilesIn(File(0)) == [Found([], 0)];
    assert Under(key, [Found([], 0)]) == [Found([key], 0)] by {
      assert [key] + [] == [key];
    }
    assert FilesOfFirst(v, 1) == [] + Under(key, [Found([], 0)]);
    assert [parts[0]] + parts[1..] == parts;
    assert Under(parts[0], [Found(parts[1..], 1)]) == [Found(parts, 1)];
    assert FilesOfFirst(v, 2) == FilesOfFirst(v, 1) + Under(parts[0], [Found(parts[1..], 1)]);
    JoinSplit(key);
    DottedStarts(path, parts);
    DottedStarts(path, [key]);
    assert [key][1..] == [];
  }

  /** A key can be used, in any tree whose other keys have no dot, without two files being
      recorded at one written path, exactly when it has no dot itself. */
  lemma WrittenPathsDifferIff(key: string)
    ensures DotFree(key) <==>
      forall v: Value :: WellFormed(v) && KeysAre(v, key) ==> WrittenPathsDiffer(v, "variables")
  {
    if DotFree(key) {
      forall v: Value | WellFormed(v) && KeysAre(v, key) ensures WrittenPathsDiffer(v, "variables") {
        KeysWithoutDots(v, key);
        DotFreePathsDiffer(v);
      }
    } else {
      CollisionCollides(key, "variables");
      var v := Collision(key);
      assert Dotted("variables", FilesIn(v)[0].path) == Dotted("variables", FilesIn(v)[1].path);
      assert !WrittenPathsDiffer(v, "variables");
    }
  }

  lemma DotFreePathsDiffer(v: Value)
    requires WellFormed(v) && DotFreeKeys(v)
    ensures WrittenPathsDiffer(v, "variables")
  {
    PathsDiffer(v);
    forall i, j | 0 <= i < j < |FilesIn(v)|
      ensures Dotted("variables", FilesIn(v)[i].path) != Dotted("variables", FilesIn(v)[j].path)
    {
      PathReadBack(v, i);
      PathReadBack(v, j);
    }
  }
}
