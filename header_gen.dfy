/** The header translator of renderdoc/script/renderdoc.py: a `#define`
    preprocessor, the Odin declaration formatters, and the line classifier
    that collects typedefs, enums and functions from a C header. The
    `TYPEDEF`, `ENUM` and `FUNCTION` patterns (lazy, backtracking regular
    expressions) are given functions; `DEFINE_PATTERN` is written out. */
module HeaderGen {
  import opened Common

  // ----- str.replace ----------------------------------------------------------

  /** Python's `s.replace(pat, rep)`: every non-overlapping occurrence of
      `pat`, from left to right, becomes `rep`. */
  function Replace(s: string, pat: string, rep: string): string
    decreases |s|
  {
    if pat == [] then InsertAround(s, rep)
    else if |s| < |pat| then s
    else if s[..|pat|] == pat then rep + Replace(s[|pat|..], pat, rep)
    else [s[0]] + Replace(s[1..], pat, rep)
  }

  /** `s.replace("", rep)`: rep before every character and at the end. */
  function InsertAround(s: string, rep: string): (r: string)
    ensures |r| == |s| + (|s| + 1) * |rep|
  {
    if s == [] then rep else rep + [s[0]] + InsertAround(s[1..], rep)
  }

  predicate OccursAt(s: string, pat: string, k: nat)
  {
    k + |pat| <= |s| && s[k..k + |pat|] == pat
  }

  /** A string with no occurrence of a non-empty `pat` is left as it is. */
  lemma {:induction false} ReplaceAbsent(s: string, pat: string, rep: string)
    requires pat != []
    requires forall k :: 0 <= k <= |s| ==> !OccursAt(s, pat, k)
    ensures Replace(s, pat, rep) == s
    decreases |s|
  {
    if |s| >= |pat| {
      assert !OccursAt(s, pat, 0);
      forall k | 0 <= k <= |s[1..]|
        ensures !OccursAt(s[1..], pat, k)
      {
        assert !OccursAt(s, pat, k + 1);
        if k + |pat| <= |s[1..]| {
          assert s[1..][k..k + |pat|] == s[k + 1..k + 1 + |pat|];
        }
      }
      ReplaceAbsent(s[1..], pat, rep);
      assert s == [s[0]] + s[1..];
    }
  }

  /** A string that is exactly `pat` becomes `rep`. */
  lemma ReplaceWhole(pat: string, rep: string)
    requires pat != []
    ensures Replace(pat, pat, rep) == rep
  {
    assert pat[..|pat|] == pat && pat[|pat|..] == [];
    assert rep + [] == rep;
  }

  // ----- DEFINE_PATTERN ----------------------------------------------------

  /** A `#define` line: the macro name and its stripped value. */
  datatype Macro = Macro(name: string, value: string)

  /** `DEFINE_PATTERN.match(line)`, `#define\s+(\w+)\s+(.+)`, and the
      stripped value. The lines come from splitting on newlines, so `.`
      (any character but a newline) is any character here. */
  function DefineMatch(line: string): (r: Option<Macro>)
    ensures r.Some? ==> StartsWith(line, "#define") && IsWord(r.value.name)
  {
    if StartsWith(line, "#define") then DefineArgs(line[7..]) else None
  }

  /** What follows `#define`: spaces, the name (a maximal word) and at least
      one space; `.+` then takes the rest of the line or, when nothing
      follows the spaces, the regex engine hands it the last of at least two. */
  function DefineArgs(r0: string): (r: Option<Macro>)
    ensures r.Some? ==> IsWord(r.value.name)
  {
    var n0 := SpacePrefix(r0);
    var r1 := r0[n0..];
    var w := WordPrefix(r1);
    var r2 := r1[w..];
    var n2 := SpacePrefix(r2);
    var r3 := r2[n2..];
    if n0 == 0 || w == 0 || n2 == 0 || (r3 == [] && n2 < 2) then None
    else
      var value := if r3 != [] then r3 else r2[n2 - 1..];
      Some(Macro(r1[..w], Strip(value)))
  }

  /** A line written `#define NAME VALUE` defines NAME as the stripped VALUE. */
  lemma DefineCanonical(name: string, value: string)
    requires IsWord(name) && value != [] && !IsSpace(value[0])
    ensures DefineMatch("#define " + name + " " + value) == Some(Macro(name, Strip(value)))
  {
    var line := "#define " + name + " " + value;
    assert line[..7] == "#define";
    assert line[7..] == " " + (name + (" " + value));
    DefineArgsCanonical(name, value);
  }

  lemma DefineArgsCanonical(name: string, value: string)
    requires IsWord(name) && value != [] && !IsSpace(value[0])
    ensures DefineArgs(" " + (name + (" " + value))) == Some(Macro(name, Strip(value)))
  {
    var r0 := " " + (name + (" " + value));
    var r1 := name + (" " + value);
    assert !IsSpace(name[0]) by { assert IsWordChar(name[0]); }
    assert r1[0] == name[0];
    assert r0[1..] == r1;
    assert SpacePrefix(r0) == 1;
    WordPrefixOf(name, " " + value);
    assert r1[..|name|] == name && r1[|name|..] == " " + value;
    assert SpacePrefix(" " + value) == 1 by {
      assert (" " + value)[1..] == value;
    }
    assert (" " + value)[1..] == value;
  }

  lemma WordPrefixOf(w: string, rest: string)
    requires IsWord(w) && (rest == [] || !IsWordChar(rest[0]))
    ensures WordPrefix(w + rest) == |w|
    decreases |w|
  {
    if |w| > 1 {
      assert (w + rest)[1..] == w[1..] + rest;
      WordPrefixOf(w[1..], rest);
    } else {
      assert (w + rest)[1..] == rest;
    }
  }

  // ----- preprocess_content --------------------------------------------------

  /** The macro dictionary: the names in insertion order (a Python dict
      keeps it), and their values. */
  datatype Macros = Macros(names: seq<string>, values: map<string, string>)

  /** Every listed name has a value. */
  predicate Listed(t: Macros)
  {
    forall k :: 0 <= k < |t.names| ==> t.names[k] in t.values
  }

  /** The dictionary invariant: the names are exactly the keys, each once. */
  predicate WellFormed(t: Macros)
  {
    && Listed(t)
    && (forall n :: n in t.values ==> n in t.names)
    && (forall i, j :: 0 <= i < j < |t.names| ==> t.names[i] != t.names[j])
  }

  /** `macros[name] = value`: a new name goes last, a redefined one keeps
      its place and takes the new value. */
  function Define(t: Macros, m: Macro): (r: Macros)
    ensures m.name in r.values && r.values[m.name] == m.value
    ensures forall n :: n in t.values && n != m.name ==> n in r.values && r.values[n] == t.values[n]
    ensures |t.names| <= |r.names| && r.names[..|t.names|] == t.names
    ensures Listed(t) ==> Listed(r)
    ensures WellFormed(t) ==> WellFormed(r)
  {
    Macros(if m.name in t.values then t.names else t.names + [m.name], t.values[m.name := m.value])
  }

  /** The loop `for name, value in macros.items(): line = line.replace(name, value)`. */
  function Substitute(line: string, names: seq<string>, values: map<string, string>): string
    requires forall k :: 0 <= k < |names| ==> names[k] in values
    decreases |names|
  {
    if names == [] then line else Substitute(Replace(line, names[0], values[names[0]]), names[1..], values)
  }

  /** The define match of each line. */
  function Defines(lines: seq<string>): (ds: seq<Option<Macro>>)
    ensures |ds| == |lines| && forall k :: 0 <= k < |lines| ==> ds[k] == DefineMatch(lines[k])
  {
    seq(|lines|, k requires 0 <= k < |lines| => DefineMatch(lines[k]))
  }

  /** The kept lines of `preprocess_content` and the dictionary afterwards. */
  function Preprocess(lines: seq<string>, t: Macros): (r: (seq<string>, Macros))
    requires Listed(t)
  {
    Walk(lines, Defines(lines), t)
  }

  /** The loop of `preprocess_content` over the lines and their define
      matches `ds`: a define line updates the dictionary and is dropped; any
      other line is kept with the macros defined so far substituted, in
      dictionary order. */
  function Walk(lines: seq<string>, ds: seq<Option<Macro>>, t: Macros): (r: (seq<string>, Macros))
    requires |ds| == |lines| && Listed(t)
    ensures Listed(r.1)
  {
    if lines == [] then ([], t)
    else if ds[0].Some? then Walk(lines[1..], ds[1..], Define(t, ds[0].value))
    else
      var r := Walk(lines[1..], ds[1..], t);
      ([Substitute(lines[0], t.names, t.values)] + r.0, r.1)
  }

  /** The number of define lines. */
  function CountDefines(ds: seq<Option<Macro>>): (n: nat)
    ensures n <= |ds|
  {
    if ds == [] then 0 else (if ds[0].Some? then 1 else 0) + CountDefines(ds[1..])
  }

  /** One kept line per line that is not a define line. */
  lemma {:induction false} WalkCount(lines: seq<string>, ds: seq<Option<Macro>>, t: Macros)
    requires |ds| == |lines| && Listed(t)
    ensures |Walk(lines, ds, t).0| == |lines| - CountDefines(ds)
  {
    if lines != [] {
      if ds[0].Some? {
        WalkCount(lines[1..], ds[1..], Define(t, ds[0].value));
      } else {
        WalkCount(lines[1..], ds[1..], t);
      }
    }
  }

  lemma PreprocessCount(lines: seq<string>, t: Macros)
    requires Listed(t)
    ensures |Preprocess(lines, t).0| == |lines| - CountDefines(Defines(lines))
  {
    WalkCount(lines, Defines(lines), t);
  }

  /** The loop in two parts: the second starts from the dictionary the
      first leaves. */
  lemma {:induction false} WalkSplit(a: seq<string>, b: seq<string>, da: seq<Option<Macro>>, db: seq<Option<Macro>>, t: Macros)
    requires |da| == |a| && |db| == |b| && Listed(t)
    ensures var pa := Walk(a, da, t); var pb := Walk(b, db, pa.1);
      Walk(a + b, da + db, t) == (pa.0 + pb.0, pb.1)
  {
    if a == [] {
      assert a + b == b && da + db == db;
      assert [] + Walk(b, db, t).0 == Walk(b, db, t).0;
    } else {
      assert (a + b)[1..] == a[1..] + b && (da + db)[1..] == da[1..] + db;
      assert (da + db)[0] == da[0];
      if da[0].Some? {
        WalkSplit(a[1..], b, da[1..], db, Define(t, da[0].value));
      } else {
        WalkSplit(a[1..], b, da[1..], db, t);
        var pa := Walk(a[1..], da[1..], t);
        var pb := Walk(b, db, pa.1);
        var x := Substitute(a[0], t.names, t.values);
        assert [x] + (pa.0 + pb.0) == ([x] + pa.0) + pb.0;
      }
    }
  }

  /** The kept lines of a first part do not depend on the lines after it:
      macros defined later never reach earlier lines. */
  lemma PreprocessSplit(a: seq<string>, b: seq<string>, t: Macros)
    requires Listed(t)
    ensures var pa := Preprocess(a, t); var pb := Preprocess(b, pa.1);
      Preprocess(a + b, t) == (pa.0 + pb.0, pb.1)
  {
    assert Defines(a + b) == Defines(a) + Defines(b);
    WalkSplit(a, b, Defines(a), Defines(b), t);
  }

  /** With an empty dictionary and no define line, every line is kept unchanged. */
  lemma {:induction false} WalkPlain(lines: seq<string>, ds: seq<Option<Macro>>)
    requires |ds| == |lines| && forall k :: 0 <= k < |ds| ==> ds[k].None?
    ensures Walk(lines, ds, Macros([], map[])) == (lines, Macros([], map[]))
  {
    if lines != [] {
      assert ds[0].None?;
      WalkPlain(lines[1..], ds[1..]);
      assert lines == [lines[0]] + lines[1..];
    }
  }

  /** Redefinitions never move a name: the dictionary afterwards lists the
      names it listed before, in the same order, ahead of the new ones. */
  lemma {:induction false} WalkKeepsOrder(lines: seq<string>, ds: seq<Option<Macro>>, t: Macros)
    requires |ds| == |lines| && Listed(t)
    ensures var u := Walk(lines, ds, t).1; |t.names| <= |u.names| && u.names[..|t.names|] == t.names
  {
    if lines != [] {
      if ds[0].Some? {
        var t1 := Define(t, ds[0].value);
        WalkKeepsOrder(lines[1..], ds[1..], t1);
        var u := Walk(lines, ds, t).1;
        assert u.names[..|t.names|] == u.names[..|t1.names|][..|t.names|];
      } else {
        WalkKeepsOrder(lines[1..], ds[1..], t);
      }
    }
  }

  lemma PreprocessKeepsOrder(lines: seq<string>, t: Macros)
    requires Listed(t)
    ensures var u := Preprocess(lines, t).1; |t.names| <= |u.names| && u.names[..|t.names|] == t.names
  {
    WalkKeepsOrder(lines, Defines(lines), t);
  }

  /** The match defines `name`. */
  predicate Redefines(d: Option<Macro>, name: string)
  {
    d.Some? && d.value.name == name
  }

  /** A name no line defines keeps its value. */
  lemma {:induction false} WalkKeepsValue(lines: seq<string>, ds: seq<Option<Macro>>, t: Macros, n: string)
    requires |ds| == |lines| && Listed(t) && n in t.values
    requires forall j :: 0 <= j < |ds| ==> !Redefines(ds[j], n)
    ensures var u := Walk(lines, ds, t).1; n in u.values && u.values[n] == t.values[n]
  {
    if lines != [] {
      assert !Redefines(ds[0], n);
      assert forall j :: 0 <= j < |ds[1..]| ==> !Redefines(ds[1..][j], n) by {
        forall j | 0 <= j < |ds[1..]| ensures !Redefines(ds[1..][j], n) {
          assert ds[1..][j] == ds[j + 1];
        }
      }
      if ds[0].Some? {
        WalkKeepsValue(lines[1..], ds[1..], Define(t, ds[0].value), n);
      } else {
        WalkKeepsValue(lines[1..], ds[1..], t, n);
      }
    }
  }

  /** The last definition of a name is its value afterwards. */
  lemma {:induction false} WalkLastDefine(lines: seq<string>, ds: seq<Option<Macro>>, t: Macros, i: nat, m: Macro)
    requires |ds| == |lines| && Listed(t)
    requires i < |ds| && ds[i] == Some(m)
    requires forall j :: i < j < |ds| ==> !Redefines(ds[j], m.name)
    ensures var u := Walk(lines, ds, t).1; m.name in u.values && u.values[m.name] == m.value
  {
    if i == 0 {
      assert forall j :: 0 <= j < |ds[1..]| ==> !Redefines(ds[1..][j], m.name) by {
        forall j | 0 <= j < |ds[1..]| ensures !Redefines(ds[1..][j], m.name) {
          assert ds[1..][j] == ds[j + 1];
        }
      }
      WalkKeepsValue(lines[1..], ds[1..], Define(t, m), m.name);
    } else {
      assert forall j :: i - 1 < j < |ds[1..]| ==> !Redefines(ds[1..][j], m.name) by {
        forall j | i - 1 < j < |ds[1..]| ensures !Redefines(ds[1..][j], m.name) {
          assert ds[1..][j] == ds[j + 1];
        }
      }
      assert ds[1..][i - 1] == ds[i];
      if ds[0].Some? {
        WalkLastDefine(lines[1..], ds[1..], Define(t, ds[0].value), i - 1, m);
      } else {
        WalkLastDefine(lines[1..], ds[1..], t, i - 1, m);
      }
    }
  }

  /** The last `#define` of a name gives its value in the caller's dictionary. */
  lemma PreprocessLastDefine(lines: seq<string>, t: Macros, i: nat, m: Macro)
    requires Listed(t)
    requires i < |lines| && DefineMatch(lines[i]) == Some(m)
    requires forall j :: i < j < |lines| ==> !Redefines(DefineMatch(lines[j]), m.name)
    ensures var u := Preprocess(lines, t).1; m.name in u.values && u.values[m.name] == m.value
  {
    var ds := Defines(lines);
    assert forall j :: i < j < |ds| ==> !Redefines(ds[j], m.name);
    WalkLastDefine(lines, ds, t, i, m);
  }

  /** The dictionary of the caller, which `preprocess_content` updates in place. */
  class MacroTable {
    var names: seq<string>
    var values: map<string, string>

    function Table(): Macros
      reads this
    {
      Macros(names, values)
    }

    ghost predicate Valid()
      reads this
    {
      WellFormed(Table())
    }

    /** `macros = {}`. */
    constructor ()
      ensures Table() == Macros([], map[]) && Valid()
    {
      names, values := [], map[];
    }

    /** `macros[name] = value`. */
    method Set(m: Macro)
      requires Valid()
      modifies this
      ensures Valid()
      ensures Table() == Define(old(Table()), m)
    {
      if m.name !in values {
        names := names + [m.name];
      }
      values := values[m.name := m.value];
    }
  }

  /** `preprocess_content(content, macros)`: the kept lines joined with
      newlines; the caller's dictionary is updated in place. */
  method PreprocessContent(content: string, macros: MacroTable) returns (r: string)
    requires macros.Valid()
    modifies macros
    ensures macros.Valid()
    ensures var p := Preprocess(Split(content, '\n'), old(macros.Table()));
      r == Join("\n", p.0) && macros.Table() == p.1
  {
    var lines := Split(content, '\n');
    ghost var ds := Defines(lines);
    var kept := PreprocessLines(lines, ds, macros);
    return Join("\n", kept);
  }

  /** The loop of `preprocess_content`, given each line's define match. */
  method PreprocessLines(lines: seq<string>, ghost ds: seq<Option<Macro>>, macros: MacroTable) returns (kept: seq<string>)
    requires |ds| == |lines| && forall k {:trigger DefineMatch(lines[k])} :: 0 <= k < |lines| ==> ds[k] == DefineMatch(lines[k])
    requires macros.Valid()
    modifies macros
    ensures macros.Valid()
    ensures var p := Walk(lines, ds, old(macros.Table())); kept == p.0 && macros.Table() == p.1
  {
    kept := [];
    ghost var whole := Walk(lines, ds, macros.Table());
    assert lines[0..] == lines && ds[0..] == ds;
    assert kept + whole.0 == whole.0;
    for i := 0 to |lines|
      invariant macros.Valid()
      invariant var p := Walk(lines[i..], ds[i..], macros.Table()); whole == (kept + p.0, p.1)
    {
      assert lines[i..][1..] == lines[i + 1..] && ds[i..][1..] == ds[i + 1..];
      var defineMatch := DefineMatch(lines[i]);
      assert ds[i..][0] == defineMatch;
      if defineMatch.Some? {
        macros.Set(defineMatch.value);
      } else {
        var line := ApplyAll(lines[i], macros);
        ghost var p := Walk(lines[i + 1..], ds[i + 1..], macros.Table());
        assert kept + ([line] + p.0) == (kept + [line]) + p.0;
        kept := kept + [line];
      }
    }
    assert kept + [] == kept;
  }

  /** The inner loop over the dictionary. */
  method ApplyAll(line: string, macros: MacroTable) returns (r: string)
    requires macros.Valid()
    ensures r == Substitute(line, macros.names, macros.values)
  {
    r := line;
    var names := macros.names;
    for j := 0 to |names|
      invariant Substitute(line, names, macros.values) == Substitute(r, names[j..], macros.values)
    {
      assert names[j..][0] == names[j] && names[j..][1..] == names[j + 1..];
      r := Replace(r, names[j], macros.values[names[j]]);
    }
  }

  /** With an empty dictionary, content without define lines comes back as it was. */
  lemma PreprocessIdentity(content: string)
    requires forall k :: 0 <= k < |Split(content, '\n')| ==> DefineMatch(Split(content, '\n')[k]).None?
    ensures Join("\n", Preprocess(Split(content, '\n'), Macros([], map[])).0) == content
  {
    WalkPlain(Split(content, '\n'), Defines(Split(content, '\n')));
    JoinSplit(content, '\n');
  }

  // ----- the formatters -----------------------------------------------------

  /** `format_enum`. */
  function FormatEnum(enumName: string, enumValues: seq<string>): string
  {
    enumName + " :: enum { " + Join(", ", enumValues) + " }"
  }

  /** `format_typedef`. */
  function FormatTypedef(typeAlias: string, originalType: string): string
  {
    typeAlias + " :: " + originalType
  }

  function FormatParam(p: (string, string)): string
  {
    p.0 + ": " + p.1
  }

  function FormatParams(params: seq<(string, string)>): (r: seq<string>)
    ensures |r| == |params| && forall k :: 0 <= k < |params| ==> r[k] == FormatParam(params[k])
  {
    seq(|params|, k requires 0 <= k < |params| => FormatParam(params[k]))
  }

  /** `format_function`. */
  function FormatFunction(funcName: string, returnType: string, params: seq<(string, string)>): string
  {
    funcName + " :: proc(" + Join(", ", FormatParams(params)) + ") -> " + returnType
  }

  // ----- what parse_content reads back ------------------------------------------

  /** `[val.strip() for val in enum_values.split(",")]`. */
  function EnumValues(text: string): (r: seq<string>)
    ensures |r| == |Split(text, ',')|
  {
    StripEach(Split(text, ','))
  }

  /** `strip()` of every item. */
  function StripEach(xs: seq<string>): (r: seq<string>)
    ensures |r| == |xs| && forall k :: 0 <= k < |xs| ==> r[k] == Strip(xs[k])
  {
    seq(|xs|, k requires 0 <= k < |xs| => Strip(xs[k]))
  }

  /** The parameter list of a function line: each piece between commas must
      split on `:` into exactly two parts, name and type, which are
      stripped; None is the ValueError of any other piece. */
  function ParseParams(text: string): (r: Option<seq<(string, string)>>)
  {
    MapAll(ParseParam, Split(text, ','))
  }

  /** `f` applied to every item, or None when it fails on one. */
  function MapAll<A, B>(f: A -> Option<B>, xs: seq<A>): (r: Option<seq<B>>)
    ensures r.Some? ==> |r.value| == |xs|
  {
    if xs == [] then Some([])
    else
      match f(xs[0])
      case None => None
      case Some(y) =>
        match MapAll(f, xs[1..])
        case None => None
        case Some(rest) => Some([y] + rest)
  }

  /** MapAll fails exactly when `f` fails on some item, and otherwise gives
      `f`'s results in order. */
  lemma {:induction false} MapAllSpec<A, B>(f: A -> Option<B>, xs: seq<A>)
    ensures MapAll(f, xs).None? <==> exists k :: 0 <= k < |xs| && f(xs[k]).None?
    ensures MapAll(f, xs).Some? ==> forall k :: 0 <= k < |xs| ==> f(xs[k]) == Some(MapAll(f, xs).value[k])
  {
    if xs != [] {
      MapAllSpec(f, xs[1..]);
      if f(xs[0]).Some? {
        if exists k :: 0 <= k < |xs[1..]| && f(xs[1..][k]).None? {
          var k :| 0 <= k < |xs[1..]| && f(xs[1..][k]).None?;
          assert f(xs[k + 1]).None?;
        }
        if exists k :: 0 <= k < |xs| && f(xs[k]).None? {
          var k :| 0 <= k < |xs| && f(xs[k]).None?;
          assert f(xs[1..][k - 1]).None?;
        }
        if MapAll(f, xs).Some? {
          var rest := MapAll(f, xs[1..]).value;
          forall k | 0 <= k < |xs| ensures f(xs[k]) == Some(MapAll(f, xs).value[k]) {
            if k > 0 {
              assert xs[1..][k - 1] == xs[k];
            }
          }
        }
      }
    }
  }

  /** The converse: items on which `f` gives the expected results. */
  lemma {:induction false} MapAllSome<A, B>(f: A -> Option<B>, xs: seq<A>, ys: seq<B>)
    requires |xs| == |ys|
    requires forall k :: 0 <= k < |xs| ==> f(xs[k]) == Some(ys[k])
    ensures MapAll(f, xs) == Some(ys)
  {
    if xs != [] {
      assert f(xs[0]) == Some(ys[0]);
      assert forall k :: 0 <= k < |xs[1..]| ==> f(xs[1..][k]) == Some(ys[1..][k]) by {
        forall k | 0 <= k < |xs[1..]| ensures f(xs[1..][k]) == Some(ys[1..][k]) {
          assert xs[1..][k] == xs[k + 1] && ys[1..][k] == ys[k + 1];
        }
      }
      MapAllSome(f, xs[1..], ys[1..]);
      assert ys == [ys[0]] + ys[1..];
    }
  }

  /** `name, data_type = param.split(":")`, stripped. */
  function ParseParam(piece: string): Option<(string, string)>
  {
    var parts := Split(piece, ':');
    if |parts| != 2 then None else Some((Strip(parts[0]), Strip(parts[1])))
  }

  /** A function without parameters, `f()`, raises: `"".split(",")` is `[""]`
      and `"".split(":")` has one part. */
  lemma EmptyParamsRaise()
    ensures ParseParams("") == None
  {
    assert Split("", ',') == [""];
    assert Split("", ':') == [""];
  }

  /** Each item with a space in front. */
  function Spaced(xs: seq<string>): (r: seq<string>)
    ensures |r| == |xs| && forall k :: 0 <= k < |xs| ==> r[k] == " " + xs[k]
  {
    if xs == [] then [] else [" " + xs[0]] + Spaced(xs[1..])
  }

  /** A piece that starts with the separator splits off an empty piece first. */
  lemma SplitLead(s: string, c: char)
    ensures Split([c] + s, c) == [""] + Split(s, c)
  {
    assert ([c] + s)[0] == c && ([c] + s)[1..] == s;
  }

  lemma SepPieces(a: string, c: char, rest: string)
    ensures a + [c, ' '] + rest == a + ([c] + (" " + rest))
  {
    assert [c, ' '] + rest == [c] + (" " + rest);
  }

  /** Splitting a `", "`-joined list on the comma gives the items back, all
      but the first with the space in front. */
  lemma {:induction false} SplitSpacedJoin(xs: seq<string>, c: char)
    requires |xs| >= 1 && c != ' '
    requires forall k :: 0 <= k < |xs| ==> c !in xs[k]
    ensures Split(Join([c, ' '], xs), c) == [xs[0]] + Spaced(xs[1..])
  {
    if |xs| > 1 {
      var rest := Join([c, ' '], xs[1..]);
      SplitSpacedJoin(xs[1..], c);
      var tail := Split(rest, c);
      assert tail == [xs[1]] + Spaced(xs[2..]) by {
        assert xs[1..][0] == xs[1] && xs[1..][1..] == xs[2..];
      }
      SplitPrefix(" ", rest, c);
      var spaced := Split(" " + rest, c);
      assert spaced == [" " + xs[1]] + Spaced(xs[2..]);
      assert spaced == Spaced(xs[1..]);
      SplitLead(" " + rest, c);
      SplitPrefix(xs[0], [c] + (" " + rest), c);
      assert Join([c, ' '], xs) == xs[0] + [c, ' '] + rest;
      SepPieces(xs[0], c, rest);
      assert xs[0] + "" == xs[0];
    } else {
      SplitWhole(xs[0], c);
    }
  }

  /** Text with no whitespace at either end, which `strip()` leaves alone. */
  predicate Trimmed(v: string)
  {
    v == [] || (!IsSpace(v[0]) && !IsSpace(v[|v| - 1]))
  }

  /** Trimmed text is its own `strip()`, and so is one space before it. */
  lemma StripSpaced(v: string)
    requires Trimmed(v)
    ensures Strip(v) == v && Strip(" " + v) == v
  {
    assert (" " + v)[1..] == v;
    assert StripLeft(v) == v;
    assert StripLeft(" " + v) == v;
  }

  /** `format_enum`'s values text read back by `parse_content`: values
      without commas or surrounding whitespace survive. */
  lemma EnumValuesRoundTrip(values: seq<string>)
    requires |values| >= 1
    requires forall k :: 0 <= k < |values| ==> ',' !in values[k] && Trimmed(values[k])
    ensures EnumValues(Join(", ", values)) == values
  {
    SplitSpacedJoin(values, ',');
    StripsBack(values);
  }

  /** Stripping the spaced items gives the trimmed items back. */
  lemma StripsBack(values: seq<string>)
    requires |values| >= 1
    requires forall k :: 0 <= k < |values| ==> Trimmed(values[k])
    ensures StripEach([values[0]] + Spaced(values[1..])) == values
  {
    var p := [values[0]] + Spaced(values[1..]);
    forall k | 0 <= k < |values|
      ensures Strip(p[k]) == values[k]
    {
      if k > 0 {
        assert p[k] == " " + values[1..][k - 1];
        assert values[1..][k - 1] == values[k];
      }
      StripSpaced(values[k]);
    }
  }

  /** `format_function`'s parameter text read back by `parse_content`:
      names and types without `,` or `:` or surrounding whitespace survive. */
  lemma ParamsRoundTrip(params: seq<(string, string)>)
    requires |params| >= 1
    requires forall k :: 0 <= k < |params| ==>
      && ',' !in params[k].0 && ':' !in params[k].0 && Trimmed(params[k].0)
      && ',' !in params[k].1 && ':' !in params[k].1 && Trimmed(params[k].1)
    ensures ParseParams(Join(", ", FormatParams(params))) == Some(params)
  {
    var fs := FormatParams(params);
    forall k | 0 <= k < |fs|
      ensures ',' !in fs[k]
    {
      NoCharIn(params[k].0, params[k].1, ',');
    }
    SplitSpacedJoin(fs, ',');
    var pieces := Split(Join(", ", fs), ',');
    forall k | 0 <= k < |pieces|
      ensures ParamPiece(pieces[k], params[k])
    {
      if k == 0 {
        PieceReads("", params[k]);
        assert "" + fs[0] == fs[0];
      } else {
        PieceReads(" ", params[k]);
      }
    }
    MapAllSome(ParseParam, pieces, params);
  }

  predicate ParamPiece(piece: string, p: (string, string))
  {
    ParseParam(piece) == Some(p)
  }

  /** `" " + "n: t"` or `"n: t"` splits on `:` into the name and the type. */
  lemma PieceReads(lead: string, p: (string, string))
    requires lead == "" || lead == " "
    requires ':' !in p.0 && Trimmed(p.0) && ':' !in p.1 && Trimmed(p.1)
    ensures ParamPiece(lead + FormatParam(p), p)
  {
    var a, b := lead + p.0, " " + p.1;
    assert lead + FormatParam(p) == Join([':'], [a, b]);
    assert ':' !in a && ':' !in b;
    SplitJoin([a, b], ':');
    StripSpaced(p.1);
    if lead == " " {
      StripSpaced(p.0);
    } else {
      assert a == p.0;
    }
  }

  lemma NoCharIn(a: string, b: string, c: char)
    requires c !in a && c !in b && c != ':' && c != ' '
    ensures c !in a + ": " + b
  {
  }

  // ----- parse_content --------------------------------------------------------

  /** The groups of `TYPEDEF_PATTERN`: the original type, the type name and
      the optional parenthesised signature. */
  datatype TypedefGroups = TypedefGroups(originalType: string, typeName: string, signature: Option<string>)

  /** The groups of `ENUM_PATTERN`: the optional `typedef` keyword, the name
      and the text between the braces. */
  datatype EnumGroups = EnumGroups(typedefKeyword: Option<string>, enumName: string, enumValues: string)

  /** The groups of `FUNCTION_PATTERN`: return type, name and parameter text. */
  datatype FunctionGroups = FunctionGroups(returnType: string, funcName: string, params: string)

  /** The three pattern matches at the start of a line. */
  datatype Matchers = Matchers(
    typedefs: string -> Option<TypedefGroups>,
    enums: string -> Option<EnumGroups>,
    func: string -> Option<FunctionGroups>)

  /** A value of the table `parse_content` fills. */
  datatype Entry =
    | TypeEntry(originalType: string)
    | EnumEntry(values: seq<string>)
    | FunctionEntry(returnType: string, params: seq<(string, string)>)

  /** What one line does to the table. */
  datatype Action = Record(name: string, entry: Entry) | Ignore | RaiseValueError

  /** Python's truth value of an optional group: matched and not empty. */
  predicate Truthy(g: Option<string>)
  {
    g.Some? && g.value != ""
  }

  /** One line of `parse_content`: a typedef match outranks an enum match,
      which outranks a function match; a typedef with a signature is recorded
      as a function without parameters; a `typedef enum` is dropped; a
      function whose parameter text does not read back raises ValueError. */
  function LineAction(m: Matchers, line: string): (a: Action)
    ensures m.typedefs(line).Some? ==>
      a == Record(m.typedefs(line).value.typeName,
                  if Truthy(m.typedefs(line).value.signature) then FunctionEntry(m.typedefs(line).value.originalType, [])
                  else TypeEntry(m.typedefs(line).value.originalType))
    ensures m.typedefs(line).None? && m.enums(line).Some? ==>
      a == if Truthy(m.enums(line).value.typedefKeyword) then Ignore
           else Record(m.enums(line).value.enumName, EnumEntry(EnumValues(m.enums(line).value.enumValues)))
    ensures a.RaiseValueError? <==>
      m.typedefs(line).None? && m.enums(line).None? && m.func(line).Some? && ParseParams(m.func(line).value.params).None?
  {
    match m.typedefs(line)
    case Some(t) =>
      if Truthy(t.signature) then Record(t.typeName, FunctionEntry(t.originalType, []))
      else Record(t.typeName, TypeEntry(t.originalType))
    case None =>
      match m.enums(line)
      case Some(e) =>
        if !Truthy(e.typedefKeyword) then Record(e.enumName, EnumEntry(EnumValues(e.enumValues))) else Ignore
      case None =>
        match m.func(line)
        case Some(f) =>
          var ps := ParseParams(f.params);
          if ps.None? then RaiseValueError else Record(f.funcName, FunctionEntry(f.returnType, ps.value))
        case None => Ignore
  }

  /** The one table after the lines, or the ValueError of the first line that raises. */
  function ParseTable(m: Matchers, lines: seq<string>, table: map<string, Entry>): (r: Option<map<string, Entry>>)
  {
    if lines == [] then Some(table)
    else
      match LineAction(m, lines[0])
      case RaiseValueError => None
      case Ignore => ParseTable(m, lines[1..], table)
      case Record(name, e) => ParseTable(m, lines[1..], table[name := e])
  }

  /** The entry the last line that records `name` gives it. */
  function LastRecord(m: Matchers, lines: seq<string>, name: string): Option<Entry>
  {
    if lines == [] then None
    else
      match LastRecord(m, lines[1..], name)
      case Some(e) => Some(e)
      case None =>
        match LineAction(m, lines[0])
        case Record(n, e) => if n == name then Some(e) else None
        case _ => None
  }

  /** The parse raises exactly when some line raises. */
  lemma {:induction false} ParseTableRaises(m: Matchers, lines: seq<string>, table: map<string, Entry>)
    ensures ParseTable(m, lines, table).None? <==> exists k :: 0 <= k < |lines| && LineAction(m, lines[k]).RaiseValueError?
  {
    if lines != [] {
      match LineAction(m, lines[0])
      case RaiseValueError =>
      case Ignore =>
        ParseTableRaises(m, lines[1..], table);
        ShiftExists(m, lines);
      case Record(name, e) =>
        ParseTableRaises(m, lines[1..], table[name := e]);
        ShiftExists(m, lines);
    }
  }

  lemma ShiftExists(m: Matchers, lines: seq<string>)
    requires lines != [] && !LineAction(m, lines[0]).RaiseValueError?
    ensures (exists k :: 0 <= k < |lines| && LineAction(m, lines[k]).RaiseValueError?)
        <==> (exists k :: 0 <= k < |lines[1..]| && LineAction(m, lines[1..][k]).RaiseValueError?)
  {
    if exists k :: 0 <= k < |lines| && LineAction(m, lines[k]).RaiseValueError? {
      var k :| 0 <= k < |lines| && LineAction(m, lines[k]).RaiseValueError?;
      assert lines[1..][k - 1] == lines[k];
    }
    if exists k :: 0 <= k < |lines[1..]| && LineAction(m, lines[1..][k]).RaiseValueError? {
      var k :| 0 <= k < |lines[1..]| && LineAction(m, lines[1..][k]).RaiseValueError?;
      assert lines[k + 1] == lines[1..][k];
    }
  }

  /** Every kind of entry lands in the one table, and the last line that
      records a name decides its entry; a name no line records keeps the
      entry it had. */
  lemma {:induction false} ParseTableLastWins(m: Matchers, lines: seq<string>, table: map<string, Entry>, name: string)
    requires ParseTable(m, lines, table).Some?
    ensures var t := ParseTable(m, lines, table).value;
      && (LastRecord(m, lines, name).Some? ==> name in t && t[name] == LastRecord(m, lines, name).value)
      && (LastRecord(m, lines, name).None? ==> (name in t <==> name in table) && (name in table ==> t[name] == table[name]))
  {
    if lines != [] {
      match LineAction(m, lines[0])
      case Ignore =>
        ParseTableLastWins(m, lines[1..], table, name);
      case Record(n, e) =>
        ParseTableLastWins(m, lines[1..], table[n := e], name);
    }
  }

  /** The four results of `parse_content`; `typedefs = enums = functions =
      variables = dict()` makes them one and the same table. */
  datatype Tables = Tables(typedefs: map<string, Entry>, enums: map<string, Entry>,
                           functions: map<string, Entry>, variables: map<string, Entry>)

  /** `parse_content`: None is the ValueError of a malformed parameter list. */
  method ParseContent(m: Matchers, content: string) returns (r: Option<Tables>)
    ensures r.Some? <==> ParseTable(m, Split(content, '\n'), map[]).Some?
    ensures r.Some? ==>
      var t := ParseTable(m, Split(content, '\n'), map[]).value;
      r.value == Tables(t, t, t, t)
  {
    var table: map<string, Entry> := map[];
    var lines := Split(content, '\n');
    for i := 0 to |lines|
      invariant ParseTable(m, lines, map[]) == ParseTable(m, lines[i..], table)
    {
      assert lines[i..][0] == lines[i] && lines[i..][1..] == lines[i + 1..];
      var line := lines[i];
      var action := LineAction(m, line);
      match action
      case RaiseValueError => return None;
      case Ignore =>
      case Record(name, e) => table := table[name := e];
    }
    return Some(Tables(table, table, table, table));
  }
}
