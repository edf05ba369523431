/** Conflict detection for a claim: which requested files the unified view's `fileOwnership`
    table assigns to some other agent. */
module Ownership {

  /** One entry of `fileOwnership`: who holds the file, since when, and for what task. */
  datatype Owner = Owner(agent: string, since: int, task: string)

  /** One reported conflict: the requested file and the record of the agent holding it. */
  datatype Conflict = Conflict(file: string, owner: Owner)

  type Ownerships = map<string, Owner>

  /** A file blocks `self` when the table has an entry for it naming a different agent. */
  predicate OwnedByOther(fo: Ownerships, self: string, file: string) {
    file in fo && fo[file].agent != self
  }

  /** The conflicts of a claim on `files`, one per blocked requested file, in request order. */
  function Conflicts(files: seq<string>, fo: Ownerships, self: string): (r: seq<Conflict>)
    ensures |r| <= |files|
    ensures forall k :: 0 <= k < |r| ==>
      r[k].file in files && OwnedByOther(fo, self, r[k].file) && r[k].owner == fo[r[k].file]
  {
    if |files| == 0 then []
    else
      var rest := Conflicts(files[1..], fo, self);
      if OwnedByOther(fo, self, files[0]) then [Conflict(files[0], fo[files[0]])] + rest else rest
  }

  /** Every blocked requested file is reported. */
  lemma {:induction false} ConflictsComplete(files: seq<string>, fo: Ownerships, self: string, i: nat)
    requires i < |files| && OwnedByOther(fo, self, files[i])
    ensures exists k :: 0 <= k < |Conflicts(files, fo, self)| && Conflicts(files, fo, self)[k].file == files[i]
  {
    var r := Conflicts(files, fo, self);
    if i == 0 {
      assert r[0].file == files[0];
    } else {
      assert files[1..][i - 1] == files[i];
      ConflictsComplete(files[1..], fo, self, i - 1);
      var rest := Conflicts(files[1..], fo, self);
      var k :| 0 <= k < |rest| && rest[k].file == files[i];
      if OwnedByOther(fo, self, files[0]) {
        assert r[k + 1] == rest[k];
      } else {
        assert r[k] == rest[k];
      }
    }
  }

  /** A claim is blocked exactly when some requested file is held by another agent. */
  lemma ConflictsEmptyIff(files: seq<string>, fo: Ownerships, self: string)
    ensures Conflicts(files, fo, self) == [] <==>
      forall i :: 0 <= i < |files| ==> !OwnedByOther(fo, self, files[i])
  {
    var r := Conflicts(files, fo, self);
    if r != [] {
      assert r[0].file in files;
    } else {
      forall i | 0 <= i < |files| ensures !OwnedByOther(fo, self, files[i]) {
        if OwnedByOther(fo, self, files[i]) {
          ConflictsComplete(files, fo, self, i);
        }
      }
    }
  }

  /** A file that is absent from the table, or held by `self`, never produces a conflict. */
  lemma UnownedNeverConflicts(files: seq<string>, fo: Ownerships, self: string, file: string)
    requires file !in fo || fo[file].agent == self
    ensures forall c :: c in Conflicts(files, fo, self) ==> c.file != file
  {
    var r := Conflicts(files, fo, self);
    forall c | c in r ensures c.file != file {
      var k :| 0 <= k < |r| && r[k] == c;
    }
  }

  /** Conflicts of a concatenated request are the conflicts of each part, in order. */
  lemma {:induction false} ConflictsAppend(a: seq<string>, b: seq<string>, fo: Ownerships, self: string)
    ensures Conflicts(a + b, fo, self) == Conflicts(a, fo, self) + Conflicts(b, fo, self)
    decreases |a|
  {
    if |a| == 0 {
      assert a + b == b;
    } else {
      assert (a + b)[0] == a[0];
      assert (a + b)[1..] == a[1..] + b;
      ConflictsAppend(a[1..], b, fo, self);
    }
  }

  /** Adds one to every position. */
  function Shift(p: seq<nat>): (q: seq<nat>)
    ensures |q| == |p|
    ensures forall k :: 0 <= k < |p| ==> q[k] == p[k] + 1
  {
    seq(|p|, k requires 0 <= k < |p| => p[k] + 1)
  }

  /** The positions in `files` that produce conflicts: strictly increasing, each within `files`,
      one per reported conflict. */
  function ConflictPositions(files: seq<string>, fo: Ownerships, self: string): (p: seq<nat>)
    ensures |p| == |Conflicts(files, fo, self)|
    ensures forall k :: 0 <= k < |p| ==> p[k] < |files|
    ensures forall k, l :: 0 <= k < l < |p| ==> p[k] < p[l]
  {
    if |files| == 0 then []
    else
      var rest := ConflictPositions(files[1..], fo, self);
      if OwnedByOther(fo, self, files[0]) then [0] + Shift(rest) else Shift(rest)
  }

  /** The k-th conflict comes from position `p[k]` of the request. */
  lemma {:induction false} ConflictPositionsMatch(files: seq<string>, fo: Ownerships, self: string, k: nat)
    requires k < |Conflicts(files, fo, self)|
    ensures ConflictPositions(files, fo, self)[k] < |files|
    ensures files[ConflictPositions(files, fo, self)[k]] == Conflicts(files, fo, self)[k].file
  {
    var tail := files[1..];
    var first := OwnedByOther(fo, self, files[0]);
    if !(first && k == 0) {
      var j := if first then k - 1 else k;
      ConflictPositionsMatch(tail, fo, self, j);
      assert files[ConflictPositions(tail, fo, self)[j] + 1] == tail[ConflictPositions(tail, fo, self)[j]];
    }
  }

  /** Every blocked position of the request is among the conflict positions. */
  lemma {:induction false} ConflictPositionsCover(files: seq<string>, fo: Ownerships, self: string, i: nat)
    requires i < |files| && OwnedByOther(fo, self, files[i])
    ensures i in ConflictPositions(files, fo, self)
  {
    if i > 0 {
      var tail := files[1..];
      assert tail[i - 1] == files[i];
      ConflictPositionsCover(tail, fo, self, i - 1);
      var rest := ConflictPositions(tail, fo, self);
      var k :| 0 <= k < |rest| && rest[k] == i - 1;
      assert Shift(rest)[k] == i;
    }
  }

  /** The conflict list is exactly the subsequence of blocked requested files, in request
      order: its k-th entry comes from position `p[k]` of `files`, the positions strictly
      increase, and every blocked position appears among them. */
  lemma ConflictsInRequestOrder(files: seq<string>, fo: Ownerships, self: string)
    ensures var p := ConflictPositions(files, fo, self);
      var r := Conflicts(files, fo, self);
      && |p| == |r|
      && (forall k :: 0 <= k < |p| ==> p[k] < |files| && files[p[k]] == r[k].file)
      && (forall k, l :: 0 <= k < l < |p| ==> p[k] < p[l])
      && (forall i :: 0 <= i < |files| && OwnedByOther(fo, self, files[i]) ==> i in p)
  {
    var p := ConflictPositions(files, fo, self);
    forall k | 0 <= k < |p| ensures files[p[k]] == Conflicts(files, fo, self)[k].file {
      ConflictPositionsMatch(files, fo, self, k);
    }
    forall i | 0 <= i < |files| && OwnedByOther(fo, self, files[i]) ensures i in p {
      ConflictPositionsCover(files, fo, self, i);
    }
  }

  /** The `forEach`/`push` loop of `start`'s scan, with the intended own-entry test (the test
      as written is `FlaggedAsWritten`). Agrees with the recursive definition `Conflicts`. */
  method CollectConflicts(files: seq<string>, fo: Ownerships, self: string) returns (conflicts: seq<Conflict>)
    ensures conflicts == Conflicts(files, fo, self)
  {
    conflicts := [];
    var i := 0;
    while i < |files|
      invariant 0 <= i <= |files|
      invariant conflicts == Conflicts(files[..i], fo, self)
    {
      var file := files[i];
      if file in fo && fo[file].agent != self {
        conflicts := conflicts + [Conflict(file, fo[file])];
      }
      ConflictsAppend(files[..i], [file], fo, self);
      assert files[..i + 1] == files[..i] + [file];
      i := i + 1;
    }
    assert files[..|files|] == files;
  }

  /** The requested file names of a conflict list, in order. */
  function ConflictFiles(cs: seq<Conflict>): (names: seq<string>)
    ensures |names| == |cs|
    ensures forall k :: 0 <= k < |cs| ==> names[k] == cs[k].file
  {
    seq(|cs|, k requires 0 <= k < |cs| => cs[k].file)
  }

  /** Property names that every object parsed from JSON inherits from `Object.prototype`.
      Indexing such an object with one of them yields a function (or, for `__proto__`, the
      prototype object itself), never `undefined`. */
  const ObjectPrototypeNames: set<string> := {
    "constructor", "hasOwnProperty", "isPrototypeOf", "propertyIsEnumerable",
    "toLocaleString", "toString", "valueOf", "__proto__",
    "__defineGetter__", "__defineSetter__", "__lookupGetter__", "__lookupSetter__"
  }

  /** The blocking test exactly as the scan writes it: the indexed value is truthy and its
      `agent` differs from `self`. A name the table does not hold itself but inherits is
      truthy and has no `agent`, so it counts as blocked. */
  predicate FlaggedAsWritten(fo: Ownerships, self: string, file: string) {
    if file in fo then fo[file].agent != self else file in ObjectPrototypeNames
  }

  /** The files the scan as written reports as conflicting, in request order. */
  function FlaggedFilesAsWritten(files: seq<string>, fo: Ownerships, self: string): (r: seq<string>)
    ensures |r| <= |files|
    ensures forall k :: 0 <= k < |r| ==> r[k] in files && FlaggedAsWritten(fo, self, r[k])
  {
    if |files| == 0 then []
    else
      var rest := FlaggedFilesAsWritten(files[1..], fo, self);
      if FlaggedAsWritten(fo, self, files[0]) then [files[0]] + rest else rest
  }

  /** The scan as written rejects a claim on a file nobody owns when the file's name is an
      inherited property name, while the intended test reports no conflict. */
  lemma PrototypeNameFalseConflict(self: string)
    ensures FlaggedFilesAsWritten(["constructor"], map[], self) == ["constructor"]
    ensures Conflicts(["constructor"], map[], self) == []
  {
    assert "constructor" in ObjectPrototypeNames;
  }

  /** Away from inherited names the scan as written and the intended test agree. */
  lemma {:induction false} AsWrittenAgreesOffPrototypeNames(files: seq<string>, fo: Ownerships, self: string)
    requires forall i :: 0 <= i < |files| ==> files[i] in fo || files[i] !in ObjectPrototypeNames
    ensures FlaggedFilesAsWritten(files, fo, self) == ConflictFiles(Conflicts(files, fo, self))
  {
    if |files| > 0 {
      assert forall i :: 0 <= i < |files[1..]| ==> files[1..][i] == files[i + 1];
      AsWrittenAgreesOffPrototypeNames(files[1..], fo, self);
    }
  }

  /** Every requested file that passes the test as written is listed by the scan as written. */
  lemma {:induction false} FlaggedComplete(files: seq<string>, fo: Ownerships, self: string, i: nat)
    requires i < |files| && FlaggedAsWritten(fo, self, files[i])
    ensures files[i] in FlaggedFilesAsWritten(files, fo, self)
  {
    if i > 0 {
      assert files[1..][i - 1] == files[i];
      FlaggedComplete(files[1..], fo, self, i - 1);
    }
  }

  /** The scan as written finds nothing exactly when no requested file passes its test. */
  lemma {:induction false} FlaggedEmptyIff(files: seq<string>, fo: Ownerships, self: string)
    ensures FlaggedFilesAsWritten(files, fo, self) == [] <==>
      forall i :: 0 <= i < |files| ==> !FlaggedAsWritten(fo, self, files[i])
  {
    if |files| > 0 {
      FlaggedEmptyIff(files[1..], fo, self);
      assert forall i :: 1 <= i < |files| ==> files[i] == files[1..][i - 1];
    }
  }
}
