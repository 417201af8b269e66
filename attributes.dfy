/** The command-line grouper of renderdoc/script/impl/attribute_checker.py.
    The argument tokens are scanned for the four flags `-F` (folder), `-If`
    (include files), `-P` (proc name) and `-Pf` (proc file). Each flag takes
    the tokens after it up to the next token that begins with `-`. Afterwards
    every include file is prefixed with the folder. The log lines the
    original prints are not modelled. */
module Attributes {
  import opened Common

  /** `AttributeType`: the four slots of an `Attribute`. */
  datatype AttributeType = Folder | IncludeFile | Proc | ProcFile

  /** What a slot holds: the include files are a list, the others a string. */
  datatype Slot = Text(text: string) | Files(files: seq<string>)

  /** The four slots as one value. */
  datatype Attrs = Attrs(folder: string, includeFiles: seq<string>, proc: string, procFile: string)

  /** A fresh `Attribute`: `list({""})` is the one-element list `[""]`. */
  const FRESH: Attrs := Attrs("", [""], "", "")

  /** A slot value fits its slot: a list for the include files, a string elsewhere. */
  predicate Fits(t: AttributeType, v: Slot)
  {
    v.Files? <==> t == IncludeFile
  }

  /** `attributes[type] = val`. */
  function Store(a: Attrs, t: AttributeType, v: Slot): (r: Attrs)
    requires Fits(t, v)
    ensures Get(r, t) == v
    ensures forall u :: u != t ==> Get(r, u) == Get(a, u)
  {
    match t
    case Folder => a.(folder := v.text)
    case IncludeFile => a.(includeFiles := v.files)
    case Proc => a.(proc := v.text)
    case ProcFile => a.(procFile := v.text)
  }

  /** `attributes[type]`. */
  function Get(a: Attrs, t: AttributeType): (v: Slot)
    ensures Fits(t, v)
  {
    match t
    case Folder => Text(a.folder)
    case IncludeFile => Files(a.includeFiles)
    case Proc => Text(a.proc)
    case ProcFile => Text(a.procFile)
  }

  /** `Attribute`: the four slots, updated in place. */
  class Attribute {
    var folder: string
    var includeFiles: seq<string>
    var proc: string
    var procFile: string

    function Value(): Attrs
      reads this
    {
      Attrs(folder, includeFiles, proc, procFile)
    }

    constructor ()
      ensures Value() == FRESH
    {
      folder, includeFiles, proc, procFile := "", [""], "", "";
    }

    /** `at(type, val)`. */
    method At(t: AttributeType, v: Slot)
      requires Fits(t, v)
      modifies this
      ensures Value() == Store(old(Value()), t, v)
    {
      match t
      case Folder => folder := v.text;
      case IncludeFile => includeFiles := v.files;
      case Proc => proc := v.text;
      case ProcFile => procFile := v.text;
    }

    /** `insert(index, item)`: overwrites one include entry (the list
        assignment raises for an index outside the list). */
    method Insert(index: nat, item: string)
      requires index < |includeFiles|
      modifies this
      ensures Value() == old(Value()).(includeFiles := old(includeFiles)[index := item])
    {
      includeFiles := includeFiles[index := item];
    }
  }

  // ----- the specification of the scan ------------------------------------

  /** `attributes_identificator`: the slot a flag token names. */
  function Identify(token: string): (r: Option<AttributeType>)
    ensures r.Some? ==> |token| > 0 && token[0] == '-'
  {
    if token == "-F" then Some(Folder)
    else if token == "-If" then Some(IncludeFile)
    else if token == "-P" then Some(Proc)
    else if token == "-Pf" then Some(ProcFile)
    else None
  }

  /** `feed(s, c)`: whether s begins with c; None is the IndexError raised
      for an empty s. */
  function Feed(s: string, c: char): (r: Option<bool>)
    ensures r.None? <==> s == []
    ensures r == Some(true) <==> |s| > 0 && s[0] == c
  {
    if s == [] then None else Some(s[0] == c)
  }

  /** A token the inner loop stops at: it begins with `-`. */
  predicate IsDash(token: string)
  {
    |token| > 0 && token[0] == '-'
  }

  /** The inner `while` from position k: the first position at or after k
      whose token begins with `-`, or k itself once k is past the end. None
      is the IndexError of an empty token met on the way. */
  function NextDash(buf: seq<string>, k: nat): (r: Option<nat>)
    decreases |buf| - k
    ensures r.Some? ==> k <= r.value && (r.value < |buf| ==> IsDash(buf[r.value]))
    ensures r.Some? ==> forall t :: k <= t < r.value ==> t < |buf| && !IsDash(buf[t]) && buf[t] != []
    ensures r.Some? && k <= |buf| ==> r.value <= |buf|
  {
    if k >= |buf| then Some(k)
    else
      match Feed(buf[k], '-')
      case None => None
      case Some(stop) => if stop then Some(k) else NextDash(buf, k + 1)
  }

  /** Python's `buf[lo:hi]` for `0 <= lo`. */
  function PySlice(buf: seq<string>, lo: nat, hi: nat): (r: seq<string>)
    ensures lo <= hi <= |buf| ==> r == buf[lo..hi]
    ensures hi <= lo ==> r == []
  {
    if hi <= lo || lo >= |buf| then [] else buf[lo..Min(hi, |buf|)]
  }

  /** What a flag stores: the list itself for `-If`, the tokens joined
      with no separator for the others. */
  function RunValue(t: AttributeType, run: seq<string>): (v: Slot)
    ensures Fits(t, v)
  {
    if t == IncludeFile then Files(run) else Text(Concat(run))
  }

  /** The `for` loop of `analyze_attribute_buffer` from position i, with the
      shared counter at `index`: the slots, and whether IndexError was raised
      (the slots then hold what the flags before stored). `i = index` at the
      end of the body has no effect on a Python `for` loop, so i always
      advances by one. */
  function Scan(buf: seq<string>, i: nat, index: nat, a: Attrs): (r: (Attrs, bool))
    decreases |buf| - i
  {
    if i >= |buf| then (a, false)
    else
      match Identify(buf[i])
      case None => Scan(buf, i + 1, index, a)
      case Some(t) =>
        match NextDash(buf, index + 1)
        case None => (a, true)
        case Some(j) => Scan(buf, i + 1, j, Store(a, t, RunValue(t, PySlice(buf, i + 1, j))))
  }

  /** `assert_file_dest` on one entry: entries that do not start with the
      folder get it in front. */
  function Prefix(folder: string, file: string): (r: string)
    ensures StartsWith(r, folder)
    ensures StartsWith(file, folder) ==> r == file
  {
    if StartsWith(file, folder) then file else assert (folder + file)[..|folder|] == folder; folder + file
  }

  function PrefixAll(folder: string, files: seq<string>): (r: seq<string>)
    ensures |r| == |files|
    ensures forall k :: 0 <= k < |files| ==> r[k] == Prefix(folder, files[k])
  {
    seq(|files|, k requires 0 <= k < |files| => Prefix(folder, files[k]))
  }

  /** `assert_file_dest` on the slots: afterwards every include entry starts
      with the folder, entries that already did are unchanged, and nothing
      else changes. */
  function FileDest(a: Attrs): (b: Attrs)
    ensures b.folder == a.folder && b.proc == a.proc && b.procFile == a.procFile
    ensures |b.includeFiles| == |a.includeFiles|
    ensures forall k :: 0 <= k < |b.includeFiles| ==> StartsWith(b.includeFiles[k], a.folder)
    ensures forall k :: 0 <= k < |a.includeFiles| && StartsWith(a.includeFiles[k], a.folder) ==>
      b.includeFiles[k] == a.includeFiles[k]
  {
    a.(includeFiles := PrefixAll(a.folder, a.includeFiles))
  }

  /** `analyze_attribute_buffer` on the slots: the scan, then `assert_file_dest`
      unless the scan raised. */
  function Analyze(buf: seq<string>, a: Attrs): (Attrs, bool)
  {
    var (s, raised) := Scan(buf, 0, 0, a);
    if raised then (s, true) else (FileDest(s), false)
  }

  // ----- properties of assert_file_dest --------------------------------------

  /** A second `assert_file_dest` changes nothing. */
  lemma FileDestIdempotent(a: Attrs)
    ensures FileDest(FileDest(a)) == FileDest(a)
  {
    var b := FileDest(a);
    forall k | 0 <= k < |b.includeFiles|
      ensures PrefixAll(b.folder, b.includeFiles)[k] == b.includeFiles[k]
    {
      assert StartsWith(b.includeFiles[k], a.folder);
    }
  }

  // ----- the grouping the scan is meant to compute -------------------------

  /** Each recognised flag at position i takes the tokens from i + 1 up to the
      next token that begins with `-`: the scan with the shared counter
      reset to the flag's own position. */
  function Grouped(buf: seq<string>, i: nat, a: Attrs): (r: (Attrs, bool))
    decreases |buf| - i
  {
    if i >= |buf| then (a, false)
    else
      match Identify(buf[i])
      case None => Grouped(buf, i + 1, a)
      case Some(t) =>
        match RunAfter(buf, i)
        case None => (a, true)
        case Some(run) => Grouped(buf, i + 1, Store(a, t, RunValue(t, run)))
  }

  /** The tokens after position p up to the next one that begins with `-`;
      None when an empty token comes first. */
  function RunAfter(buf: seq<string>, p: nat): (r: Option<seq<string>>)
    requires p < |buf|
    ensures r.Some? <==> NextDash(buf, p + 1).Some?
    ensures r.Some? ==> r.value == buf[p + 1..NextDash(buf, p + 1).value]
  {
    match NextDash(buf, p + 1)
    case None => None
    case Some(j) => Some(buf[p + 1..j])
  }

  /** The last position at or after i holding a flag for slot t. */
  function LastFlag(buf: seq<string>, i: nat, t: AttributeType): (r: Option<nat>)
    decreases |buf| - i
    ensures r.Some? ==> i <= r.value < |buf| && Identify(buf[r.value]) == Some(t)
    ensures r.Some? ==> forall k :: r.value < k < |buf| ==> Identify(buf[k]) != Some(t)
    ensures r.None? ==> forall k :: i <= k < |buf| ==> Identify(buf[k]) != Some(t)
  {
    if i >= |buf| then None
    else
      match LastFlag(buf, i + 1, t)
      case Some(p) => Some(p)
      case None => if Identify(buf[i]) == Some(t) then Some(i) else None
  }

  /** The grouping's slots: each holds the run of the last flag that names
      it, and a slot that no flag names keeps its value. A later flag thus
      overwrites an earlier one, and tokens that are not flags are ignored. */
  lemma {:induction false} GroupedSlot(buf: seq<string>, i: nat, a: Attrs, t: AttributeType)
    requires !Grouped(buf, i, a).1
    ensures LastFlag(buf, i, t).None? ==> Get(Grouped(buf, i, a).0, t) == Get(a, t)
    ensures LastFlag(buf, i, t).Some? ==>
      var p := LastFlag(buf, i, t).value;
      RunAfter(buf, p).Some? && Get(Grouped(buf, i, a).0, t) == RunValue(t, RunAfter(buf, p).value)
    decreases |buf| - i
  {
    if i < |buf| {
      match Identify(buf[i])
      case None =>
        GroupedSlot(buf, i + 1, a, t);
      case Some(u) =>
        GroupedSlot(buf, i + 1, Store(a, u, RunValue(u, RunAfter(buf, i).value)), t);
    }
  }

  /** The argument lists on which the scan does what it is meant to: the
      first token is a flag, or there are no tokens, and every token that
      begins with `-` is a flag. */
  predicate Orderly(buf: seq<string>)
  {
    && (|buf| > 0 ==> IsDash(buf[0]))
    && forall k :: 0 <= k < |buf| && IsDash(buf[k]) ==> Identify(buf[k]).Some?
  }

  /** On such lists the shared counter is always at the flag being handled,
      so the scan is the grouping. */
  lemma {:induction false} ScanIsGrouped(buf: seq<string>, i: nat, index: nat, a: Attrs)
    requires Orderly(buf)
    requires i <= index <= |buf|
    requires index < |buf| ==> IsDash(buf[index])
    requires forall k :: i <= k < index ==> !IsDash(buf[k])
    ensures Scan(buf, i, index, a) == Grouped(buf, i, a)
    decreases |buf| - i
  {
    if i < |buf| {
      if i < index {
        assert Identify(buf[i]).None?;
        ScanIsGrouped(buf, i + 1, index, a);
      } else {
        var t := Identify(buf[i]).value;
        match NextDash(buf, i + 1)
        case None =>
        case Some(j) =>
          ScanIsGrouped(buf, i + 1, j, Store(a, t, RunValue(t, RunAfter(buf, i).value)));
      }
    }
  }

  lemma AnalyzeOrderly(buf: seq<string>, a: Attrs)
    requires Orderly(buf)
    ensures Scan(buf, 0, 0, a) == Grouped(buf, 0, a)
  {
    ScanIsGrouped(buf, 0, 0, a);
  }

  /** When a token other than a flag comes first, the counter trails behind:
      `["x", "-F", "a"]` leaves the folder empty, where the grouping sets it
      to `"a"`. */
  lemma LeadingTokenLosesRun()
    ensures Scan(["x", "-F", "a"], 0, 0, FRESH) == (FRESH, false)
    ensures Grouped(["x", "-F", "a"], 0, FRESH) == (FRESH.(folder := "a"), false)
  {
    var buf := ["x", "-F", "a"];
    assert NextDash(buf, 1) == Some(1);
    assert Scan(buf, 2, 1, FRESH) == (FRESH, false);
    assert Concat(buf[2..3]) == "a";
    assert Grouped(buf, 2, FRESH.(folder := "a")) == (FRESH.(folder := "a"), false);
  }

  /** An unrecognised `-` token makes the next flag's run empty:
      `["-F", "a", "-Z", "-P", "b"]` leaves the proc empty instead of `"b"`. */
  lemma UnknownDashTokenLosesRun()
    ensures Scan(["-F", "a", "-Z", "-P", "b"], 0, 0, FRESH) == (FRESH.(folder := "a"), false)
    ensures Grouped(["-F", "a", "-Z", "-P", "b"], 0, FRESH) == (FRESH.(folder := "a", proc := "b"), false)
  {
    var buf := ["-F", "a", "-Z", "-P", "b"];
    var f := FRESH.(folder := "a");
    assert NextDash(buf, 2) == Some(2);
    assert NextDash(buf, 1) == Some(2);
    assert NextDash(buf, 3) == Some(3);
    assert buf[1..2] == ["a"] && Concat(["a"]) == "a";
    assert PySlice(buf, 4, 3) == [] && Concat([]) == "";
    assert Scan(buf, 3, 2, f) == (f, false);
    assert NextDash(buf, 4) == Some(5);
    assert buf[4..5] == ["b"] && Concat(["b"]) == "b";
    assert Grouped(buf, 3, f) == (f.(proc := "b"), false);
  }

  // ----- the checker ----------------------------------------------------------

  /** `AttributeChecker`: the argument tokens and the slots they fill. */
  class AttributeChecker {
    const buffer: seq<string>
    const attributes: Attribute

    /** The argument tokens are a parameter; the original's default is
        `sys.argv[1:-1]`. */
    constructor (buffer: seq<string>)
      ensures this.buffer == buffer && fresh(attributes) && attributes.Value() == FRESH
    {
      this.buffer := buffer;
      attributes := new Attribute();
    }

    /** `assert_file_dest`. */
    method AssertFileDest()
      modifies attributes
      ensures attributes.Value() == FileDest(old(attributes.Value()))
    {
      var folder := attributes.folder;
      var index := 0;
      while index < |attributes.includeFiles|
        invariant 0 <= index <= |attributes.includeFiles| == |old(attributes.includeFiles)|
        invariant attributes.Value() == old(attributes.Value()).(includeFiles := attributes.includeFiles)
        invariant forall k :: 0 <= k < index ==> attributes.includeFiles[k] == Prefix(folder, old(attributes.includeFiles)[k])
        invariant forall k :: index <= k < |attributes.includeFiles| ==> attributes.includeFiles[k] == old(attributes.includeFiles)[k]
      {
        var file := attributes.includeFiles[index];
        if !StartsWith(file, folder) {
          attributes.Insert(index, folder + file);
        }
        index := index + 1;
      }
      assert attributes.includeFiles == PrefixAll(folder, old(attributes.includeFiles));
    }

    /** `analyze_attribute_buffer`: `raised` is the IndexError of an empty
        token met by the inner loop, which skips `assert_file_dest`. */
    method AnalyzeAttributeBuffer() returns (raised: bool)
      modifies attributes
      ensures (attributes.Value(), raised) == Analyze(buffer, old(attributes.Value()))
      ensures !raised ==> forall k :: 0 <= k < |attributes.includeFiles| ==>
        StartsWith(attributes.includeFiles[k], attributes.folder)
    {
      ghost var a0 := attributes.Value();
      var index := 0;
      for i := 0 to |buffer|
        invariant Scan(buffer, 0, 0, a0) == Scan(buffer, i, index, attributes.Value())
      {
        var line := buffer[i];
        var t := Identify(line);
        if t.Some? {
          index := index + 1;
          var stop := ScanRun(index);
          if stop.None? {
            return true;
          }
          index := stop.value;
          attributes.At(t.value, RunValue(t.value, PySlice(buffer, i + 1, index)));
        }
      }
      AssertFileDest();
      return false;
    }

    /** The inner `while` of `analyze_attribute_buffer`, from `start`. */
    method ScanRun(start: nat) returns (stop: Option<nat>)
      ensures stop == NextDash(buffer, start)
    {
      var index := start;
      while index < |buffer|
        invariant start <= index
        invariant NextDash(buffer, start) == NextDash(buffer, index)
        decreases |buffer| - index
      {
        var f := Feed(buffer[index], '-');
        if f.None? {
          return None;
        }
        if f.value {
          break;
        }
        index := index + 1;
      }
      return Some(index);
    }

    /** `files()`. */
    function Files(): (r: seq<string>)
      reads this, attributes
      ensures r == Get(attributes.Value(), IncludeFile).files
    {
      attributes.includeFiles
    }

    /** `proc_file()`. */
    function ProcFile(): (r: string)
      reads this, attributes
      ensures r == Get(attributes.Value(), AttributeType.ProcFile).text
    {
      attributes.procFile
    }
  }
}
