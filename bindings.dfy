/** The binding generator of renderdoc/script/impl/main.py. It collects the
    procedure names of an Odin API struct (and of the `#raw_union` blocks that
    struct uses), drops repeated and excluded names, sorts them by length,
    and writes an Odin procedure that binds each name to its RenderDoc symbol
    and then asserts that each binding succeeded, all in aligned columns.
    The regular-expression searches are given functions; the output file is
    the sequence of strings written to it. */
module Bindings {
  import opened Common
  import StableSort

  /** `ODIN_PROC_DEFAULT` of renderdoc/script/impl/defs.py. */
  const ODIN_PROC_DEFAULT: set<string> :=
    {"CreateInstance", "EnumerateInstanceVersion", "EnumerateInstanceLayerProperties", "EnumerateInstanceExtensionProperties"}

  /** `ODIN_PROC_EXCEPTIONS`: names never bound from the API struct. */
  const ODIN_PROC_EXCEPTIONS: set<string> :=
    {"MAKE_VERSION", "load_proc_addresses_global", "load_proc_addresses_instance",
     "load_proc_addresses_device", "load_proc_addresses_device_vtable",
     "load_proc_addresses_custom", "DestroyDebugUtilsMessengerEXT"} + ODIN_PROC_DEFAULT

  /** The regular-expression searches over the Odin source:
      - `structBody(text, name)`: group 1 of the search for the
        `name :: struct {` block, if there is one;
      - `fieldNames(body)`: the first group of each `name : pRENDERDOC_…`
        field, in order (`findall`);
      - `unionBody(text, name)`: group 1 of the search for the
        `using name : struct #raw_union {` block;
      - `unionNames(text)`: the names of every `using … : struct #raw_union`. */
  datatype Searches = Searches(
    structBody: (string, string) -> Option<string>,
    fieldNames: string -> seq<string>,
    unionBody: (string, string) -> Option<string>,
    unionNames: string -> seq<string>)

  // ----- collecting the names ------------------------------------------------

  /** `get_struct_functions`: the field names of the struct's block with
      `prefix` in front, or nothing when the block is absent. */
  function GetStructFunctions(re: Searches, contents: string, structName: string, prefix: string): (r: seq<string>)
    ensures re.structBody(contents, structName).None? ==> r == []
    ensures re.structBody(contents, structName).Some? ==>
      var names := re.fieldNames(re.structBody(contents, structName).value);
      |r| == |names| && forall k :: 0 <= k < |r| ==> StartsWith(r[k], prefix) && r[k][|prefix|..] == names[k]
  {
    match re.structBody(contents, structName)
    case None => []
    case Some(body) =>
      var names := re.fieldNames(body);
      seq(|names|, k requires 0 <= k < |names| =>
        assert (prefix + names[k])[..|prefix|] == prefix && (prefix + names[k])[|prefix|..] == names[k];
        prefix + names[k])
  }

  /** `get_union_functions`: the fields of the union's block, each written
      `union.field`, or nothing when the block is absent. */
  function GetUnionFunctions(re: Searches, contents: string, unionName: string): (r: seq<string>)
    ensures re.unionBody(contents, unionName).None? ==> r == []
    ensures forall k :: 0 <= k < |r| ==> StartsWith(r[k], unionName + ".")
  {
    match re.unionBody(contents, unionName)
    case None => []
    case Some(body) => GetStructFunctions(re, body, unionName, unionName + ".")
  }

  /** The names the first loop of `get_proc_signatures` keeps from the first
      n struct names: each one at its first occurrence, unless it is an
      exception. */
  function FirstsUpTo(xs: seq<string>, n: nat): (r: seq<string>)
    requires n <= |xs|
  {
    if n == 0 then []
    else FirstsUpTo(xs, n - 1) + (if xs[n - 1] !in xs[..n - 1] && xs[n - 1] !in ODIN_PROC_EXCEPTIONS then [xs[n - 1]] else [])
  }

  function Dedupe(xs: seq<string>): seq<string>
  {
    FirstsUpTo(xs, |xs|)
  }

  ghost predicate Distinct(xs: seq<string>)
  {
    forall i, j :: 0 <= i < j < |xs| ==> xs[i] != xs[j]
  }

  /** The kept names are distinct, none is an exception, and every other
      name of the input is kept. */
  lemma {:induction false} FirstsUpToSpec(xs: seq<string>, n: nat)
    requires n <= |xs|
    ensures Distinct(FirstsUpTo(xs, n))
    ensures forall x :: x in FirstsUpTo(xs, n) <==> x in xs[..n] && x !in ODIN_PROC_EXCEPTIONS
  {
    if n > 0 {
      FirstsUpToSpec(xs, n - 1);
      assert xs[..n] == xs[..n - 1] + [xs[n - 1]];
    }
  }

  lemma DedupeSpec(xs: seq<string>)
    ensures Distinct(Dedupe(xs))
    ensures forall x :: x in Dedupe(xs) <==> x in xs && x !in ODIN_PROC_EXCEPTIONS
  {
    FirstsUpToSpec(xs, |xs|);
    assert xs[..|xs|] == xs;
  }

  /** The names of the unions, each union's names in order, unions in order. */
  function UnionProcs(re: Searches, contents: string, unions: seq<string>): (r: seq<string>)
  {
    if unions == [] then []
    else GetUnionFunctions(re, contents, unions[0]) + UnionProcs(re, contents, unions[1..])
  }

  lemma {:induction false} UnionProcsAppend(re: Searches, contents: string, unions: seq<string>, u: string)
    ensures UnionProcs(re, contents, unions + [u]) == UnionProcs(re, contents, unions) + GetUnionFunctions(re, contents, u)
  {
    if unions == [] {
      assert [] + [u] == [u];
    } else {
      assert (unions + [u])[1..] == unions[1..] + [u];
      UnionProcsAppend(re, contents, unions[1..], u);
    }
  }

  /** Every collected name: the deduplicated struct names, then the union
      names with neither deduplication nor exclusion. */
  function Collected(re: Searches, contents: string, structName: string): seq<string>
  {
    Dedupe(GetStructFunctions(re, contents, structName, "")) + UnionProcs(re, contents, re.unionNames(contents))
  }

  function Len(s: string): int
  {
    |s|
  }

  /** `sorted(xs, key=len)`. */
  function SortByLen(xs: seq<string>): (r: seq<string>)
    ensures |r| == |xs|
    ensures StableSort.SortedBy(r, Len)
    ensures multiset(r) == multiset(xs)
  {
    StableSort.SortBySorted(xs, Len);
    StableSort.SortByPermutation(xs, Len);
    StableSort.SortBy(xs, Len)
  }

  /** `get_proc_signatures`: the collected names sorted by length, stably. */
  method GetProcSignatures(re: Searches, contents: string, structName: string) returns (r: seq<string>)
    ensures r == SortByLen(Collected(re, contents, structName))
  {
    var structFunctions := GetStructFunctions(re, contents, structName, "");
    var foundProcs := KeepFirsts(structFunctions);
    var unionProcs := CollectUnionProcs(re, contents, re.unionNames(contents));
    return SortByLen(foundProcs + unionProcs);
  }

  /** The second loop of `get_proc_signatures`, over the union names. */
  method CollectUnionProcs(re: Searches, contents: string, unionNames: seq<string>) returns (procs: seq<string>)
    ensures procs == UnionProcs(re, contents, unionNames)
  {
    procs := [];
    for u := 0 to |unionNames|
      invariant procs == UnionProcs(re, contents, unionNames[..u])
    {
      UnionProcsAppend(re, contents, unionNames[..u], unionNames[u]);
      assert unionNames[..u + 1] == unionNames[..u] + [unionNames[u]];
      procs := procs + GetUnionFunctions(re, contents, unionNames[u]);
    }
    assert unionNames[..|unionNames|] == unionNames;
  }

  /** The first loop of `get_proc_signatures`. */
  method KeepFirsts(xs: seq<string>) returns (found: seq<string>)
    ensures found == Dedupe(xs)
  {
    found := [];
    for i := 0 to |xs|
      invariant found == FirstsUpTo(xs, i)
    {
      FirstsUpToSpec(xs, i);
      if xs[i] !in found && xs[i] !in ODIN_PROC_EXCEPTIONS {
        found := found + [xs[i]];
      }
    }
  }

  /** The result holds each struct name once, no exception, every union name
      as often as the unions give it, ordered by length, and equal-length
      names in the order they were collected. */
  lemma ProcSignaturesSpec(re: Searches, contents: string, structName: string)
    ensures var r := SortByLen(Collected(re, contents, structName));
      && multiset(r) == multiset(Dedupe(GetStructFunctions(re, contents, structName, "")))
                        + multiset(UnionProcs(re, contents, re.unionNames(contents)))
      && StableSort.SortedBy(r, Len)
      && forall k :: StableSort.WithKey(r, Len, k) == StableSort.WithKey(Collected(re, contents, structName), Len, k)
  {
    var c := Collected(re, contents, structName);
    forall k {
      StableSort.SortByStable(c, Len, k);
    }
  }

  // ----- the binding text --------------------------------------------------

  /** `tabulate(lo, hi)`: `hi - lo` spaces; Python's `" " * n` is empty for n <= 0. */
  function Tabulate(lo: int, hi: int): (r: string)
    ensures |r| == if lo < hi then hi - lo else 0
    ensures forall k :: 0 <= k < |r| ==> r[k] == ' '
  {
    Repeat(' ', if lo < hi then hi - lo else 0)
  }

  /** What differs between `bind_all_struct_functions` and
      `append_proc_bindings`: the field access and the procedure's parameter. */
  datatype Style = Style(access: string, parameter: string)

  const STRUCT_STYLE := Style("renderdoc_handler.rdoc_api.", "renderdoc_handler: ^RENDERDOC_HANDLER")
  const PROC_STYLE := Style("renderdoc_handler.rdoc_api->", "using renderdoc_handler: ^RENDERDOC_HANDLER")

  const ASSERTION_BANNER := "\n \t/*-----ASSERTION LAYER-----*/\n"
  const CLOSING := "}\n\n"

  /** The fixed text of a binding line around the padded name and the symbol name. */
  const BIND_OPEN := "\t"
  const BIND_MID := " = " + "auto_cast dynlib.symbol_address(renderdoc_handler.renderdoc_lib, \"RENDERDOC_"
  const BIND_CLOSE := "\");\n"

  /** The fixed text of an assertion line. */
  const ASSERT_OPEN := "\tassert("
  const ASSERT_MID := " != " + "nil, \"failed to bind RENDERDOC_"
  const ASSERT_CLOSE := "\");\n"

  function Header(style: Style, dest: string): string
  {
    dest + " :: proc(" + style.parameter + ") {\n"
  }

  /** The name padded to the column: `name + " " + tabulate(len(name), hi)`. */
  function Column(name: string, hi: int): (r: string)
    ensures |name| <= hi ==> |r| == hi + 1
  {
    name + " " + Tabulate(|name|, hi)
  }

  function BindLine(style: Style, name: string, hi: int): string
  {
    BIND_OPEN + style.access + Column(name, hi) + BIND_MID + name + BIND_CLOSE
  }

  function AssertLine(style: Style, name: string, hi: int): string
  {
    ASSERT_OPEN + style.access + Column(name, hi) + ASSERT_MID + name + ASSERT_CLOSE
  }

  /** The binding lines of the names, in order. */
  function BindLines(style: Style, names: seq<string>, hi: int): seq<string>
  {
    if names == [] then [] else BindLines(style, names[..|names| - 1], hi) + [BindLine(style, names[|names| - 1], hi)]
  }

  /** The assertion lines of the names, in order. */
  function AssertLines(style: Style, names: seq<string>, hi: int): seq<string>
  {
    if names == [] then [] else AssertLines(style, names[..|names| - 1], hi) + [AssertLine(style, names[|names| - 1], hi)]
  }

  lemma {:induction false} LinesAt(style: Style, names: seq<string>, hi: int)
    ensures |BindLines(style, names, hi)| == |names| == |AssertLines(style, names, hi)|
    ensures forall k :: 0 <= k < |names| ==>
      BindLines(style, names, hi)[k] == BindLine(style, names[k], hi)
      && AssertLines(style, names, hi)[k] == AssertLine(style, names[k], hi)
  {
    if names != [] {
      LinesAt(style, names[..|names| - 1], hi);
    }
  }

  /** What the writers write for a non-empty sorted list: the header, one
      binding per name, a blank line, the banner, one assertion per name and
      the closing brace. `hi` is the length of the last (longest) name. */
  function BindingText(style: Style, dest: string, sorted: seq<string>): seq<string>
    requires |sorted| > 0
  {
    var hi := |sorted[|sorted| - 1]|;
    ([Header(style, dest)] + BindLines(style, sorted, hi)) + ["\n"]
      + ([ASSERTION_BANNER] + AssertLines(style, sorted, hi)) + [CLOSING]
  }

  /** The layout of the text: line by line, in writing order. */
  lemma BindingTextLayout(style: Style, dest: string, sorted: seq<string>)
    requires |sorted| > 0
    ensures var r := BindingText(style, dest, sorted);
      var n := |sorted|;
      var hi := |sorted[n - 1]|;
      && |r| == 2 * n + 4
      && r[0] == Header(style, dest) && r[n + 1] == "\n" && r[n + 2] == ASSERTION_BANNER && r[2 * n + 3] == CLOSING
      && forall k :: 0 <= k < n ==>
           r[1 + k] == BindLine(style, sorted[k], hi) && r[n + 3 + k] == AssertLine(style, sorted[k], hi)
  {
    var n := |sorted|;
    var hi := |sorted[n - 1]|;
    LinesAt(style, sorted, hi);
    var r := BindingText(style, dest, sorted);
    forall k | 0 <= k < n
      ensures r[1 + k] == BindLine(style, sorted[k], hi) && r[n + 3 + k] == AssertLine(style, sorted[k], hi)
    {
      assert r[1 + k] == BindLines(style, sorted, hi)[k];
      assert r[n + 3 + k] == AssertLines(style, sorted, hi)[k];
    }
  }

  /** After sorting, the last name is a longest one. */
  lemma LastIsLongest(sorted: seq<string>)
    requires |sorted| > 0 && StableSort.SortedBy(sorted, Len)
    ensures forall k :: 0 <= k < |sorted| ==> |sorted[k]| <= |sorted[|sorted| - 1]|
  {
    forall k | 0 <= k < |sorted|
      ensures |sorted[k]| <= |sorted[|sorted| - 1]|
    {
      if k < |sorted| - 1 {
        assert Len(sorted[k]) <= Len(sorted[|sorted| - 1]);
      }
    }
  }

  /** The columns align: in every binding line `=` is at the same position,
      and in every assertion line `!=` is. */
  lemma ColumnsAlign(style: Style, names: seq<string>)
    requires |names| > 0
    ensures var sorted := SortByLen(names);
      var hi := |sorted[|sorted| - 1]|;
      forall k :: 0 <= k < |sorted| ==> BindColumnAt(style, sorted[k], hi) && AssertColumnAt(style, sorted[k], hi)
  {
    var sorted := SortByLen(names);
    var hi := |sorted[|sorted| - 1]|;
    LastIsLongest(sorted);
    forall k | 0 <= k < |sorted|
      ensures BindColumnAt(style, sorted[k], hi) && AssertColumnAt(style, sorted[k], hi)
    {
      LineColumns(style, sorted[k], hi);
    }
  }

  /** `" = "` starts at column `|BIND_OPEN| + |access| + hi + 1` of the binding line. */
  predicate BindColumnAt(style: Style, name: string, hi: int)
  {
    var b := |BIND_OPEN| + |style.access| + hi + 1;
    0 <= b && b + 3 <= |BindLine(style, name, hi)| && BindLine(style, name, hi)[b..b + 3] == " = "
  }

  /** `" != "` starts at column `|ASSERT_OPEN| + |access| + hi + 1` of the assertion line. */
  predicate AssertColumnAt(style: Style, name: string, hi: int)
  {
    var c := |ASSERT_OPEN| + |style.access| + hi + 1;
    0 <= c && c + 4 <= |AssertLine(style, name, hi)| && AssertLine(style, name, hi)[c..c + 4] == " != "
  }

  lemma MidTexts()
    ensures |BIND_MID| >= 3 && BIND_MID[..3] == " = "
    ensures |ASSERT_MID| >= 4 && ASSERT_MID[..4] == " != "
  {
  }

  lemma LineColumns(style: Style, name: string, hi: int)
    requires |name| <= hi
    ensures BindColumnAt(style, name, hi) && AssertColumnAt(style, name, hi)
  {
    MidTexts();
    var col := Column(name, hi);
    var p := BIND_OPEN + style.access + col;
    var bindTail := BIND_MID + name + BIND_CLOSE;
    assert BindLine(style, name, hi) == p + bindTail;
    assert (p + bindTail)[|p|..|p| + 3] == bindTail[..3] == BIND_MID[..3];
    var q := ASSERT_OPEN + style.access + col;
    var assertTail := ASSERT_MID + name + ASSERT_CLOSE;
    assert AssertLine(style, name, hi) == q + assertTail;
    assert (q + assertTail)[|q|..|q| + 4] == assertTail[..4] == ASSERT_MID[..4];
  }

  // ----- writing ------------------------------------------------------------

  /** An open text file: what has been written to it, in order. */
  class OutFile {
    var written: seq<string>

    constructor ()
      ensures written == []
    {
      written := [];
    }

    method Write(s: string)
      modifies this
      ensures written == old(written) + [s]
    {
      written := written + [s];
    }
  }

  /** The common body of `bind_all_struct_functions` and
      `append_proc_bindings`. An empty list raises IndexError at
      `names[len(names) - 1]`, before anything is written. */
  method WriteBindings(file: OutFile, style: Style, names: seq<string>, dest: string) returns (raised: bool)
    modifies file
    ensures raised <==> names == []
    ensures raised ==> file.written == old(file.written)
    ensures !raised ==> file.written == old(file.written) + BindingText(style, dest, SortByLen(names))
  {
    var sorted := SortByLen(names);
    if |sorted| == 0 {
      return true;
    }
    var hi := |sorted[|sorted| - 1]|;
    var signature, assertions := BuildLines(style, sorted, hi);
    signature := [Header(style, dest)] + signature;
    assertions := [ASSERTION_BANNER] + assertions;
    WriteAll(file, signature);
    file.Write("\n");
    WriteAll(file, assertions);
    file.Write(CLOSING);
    return false;
  }

  /** The loop of the writers that builds the binding and assertion lines. */
  method BuildLines(style: Style, sorted: seq<string>, hi: int) returns (signature: seq<string>, assertions: seq<string>)
    ensures signature == BindLines(style, sorted, hi) && assertions == AssertLines(style, sorted, hi)
  {
    signature, assertions := [], [];
    for k := 0 to |sorted|
      invariant signature == BindLines(style, sorted[..k], hi)
      invariant assertions == AssertLines(style, sorted[..k], hi)
    {
      assert sorted[..k + 1][..k] == sorted[..k];
      signature := signature + [BindLine(style, sorted[k], hi)];
      assertions := assertions + [AssertLine(style, sorted[k], hi)];
    }
    assert sorted[..|sorted|] == sorted;
  }

  /** `for line in lines: file.write(line)`. */
  method WriteAll(file: OutFile, lines: seq<string>)
    modifies file
    ensures file.written == old(file.written) + lines
  {
    for k := 0 to |lines|
      invariant file.written == old(file.written) + lines[..k]
    {
      file.Write(lines[k]);
      assert lines[..k + 1] == lines[..k] + [lines[k]];
    }
    assert lines[..|lines|] == lines;
  }

  /** `bind_all_struct_functions`. */
  method BindAllStructFunctions(file: OutFile, structFunctions: seq<string>, destStruct: string) returns (raised: bool)
    modifies file
    ensures raised <==> structFunctions == []
    ensures raised ==> file.written == old(file.written)
    ensures !raised ==> file.written == old(file.written) + BindingText(STRUCT_STYLE, destStruct, SortByLen(structFunctions))
  {
    raised := WriteBindings(file, STRUCT_STYLE, structFunctions, destStruct);
  }

  /** `append_proc_bindings`. */
  method AppendProcBindings(file: OutFile, procBindings: seq<string>, destProc: string) returns (raised: bool)
    modifies file
    ensures raised <==> procBindings == []
    ensures raised ==> file.written == old(file.written)
    ensures !raised ==> file.written == old(file.written) + BindingText(PROC_STYLE, destProc, SortByLen(procBindings))
  {
    raised := WriteBindings(file, PROC_STYLE, procBindings, destProc);
  }
}
