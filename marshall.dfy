/** The older type-mapping script, binary/marshall/type_gen.py. Its parser is a
    stub that returns no structs and its struct equality fails an assertion,
    so every lookup fails; the model states that outright. The edit distance
    and the fuzzy match it shares with the generator are in Levenshtein. */
module Marshall {
  import opened Common
  import Levenshtein

  datatype Error =
    | TypeError                                        // a call with missing arguments
    | AssertionError                                   // `assert False` in `Struct.__eq__`
    | StructNotFound(name: string, suggestion: Option<string>)

  /** `check_extension` of `write_file_mapping`: the suffix is "mr", without a dot. */
  function CheckMappingExtension(path: string): (r: string)
    ensures EndsWith(r, "mr")
    ensures EndsWith(path, "mr") ==> r == path
    ensures !EndsWith(path, "mr") ==> r == path + "mr"
  {
    if EndsWith(path, "mr") then path else path + "mr"
  }

  /** A second call adds nothing. */
  lemma CheckMappingExtensionIdempotent(path: string)
    ensures CheckMappingExtension(CheckMappingExtension(path)) == CheckMappingExtension(path)
  {
  }

  /** `check_extension` of `open_program_in_use_type_file`. */
  function CheckTypeExtension(path: string): (r: string)
    ensures EndsWith(r, ".mrtype")
    ensures EndsWith(path, ".mrtype") ==> r == path
    ensures !EndsWith(path, ".mrtype") ==> r == path + ".mrtype"
  {
    if EndsWith(path, ".mrtype") then path else path + ".mrtype"
  }

  /** `write_file_mapping` after the prompt: it opens (and so truncates) the
      file named by the answer with the suffix added, then calls `write()`
      with no argument, which raises. Gives the file's name and the error. */
  function WriteFileMapping(answer: string): (r: (string, Error))
    ensures EndsWith(r.0, "mr") && StartsWith(r.0, answer)
    ensures r.1 == TypeError
  {
    (CheckMappingExtension(answer), TypeError)
  }

  /** `parse_file`: reads every line and keeps nothing. */
  method ParseFile(lines: seq<string>) returns (structs: seq<string>)
    ensures structs == []
  {
    structs := [];
    for k := 0 to |lines|
      invariant structs == []
    {
    }
  }

  /** `struct_name not in structs`: Python's `in` compares with each element's
      `__eq__`, which fails its assertion; only an empty list answers. */
  function NotIn(name: string, structs: seq<string>): (r: Result<bool, Error>)
    ensures r.Ok? <==> structs == []
    ensures r.Ok? ==> r.value
  {
    if structs == [] then Ok(true) else Err(AssertionError)
  }

  /** `open_program_in_use_type_file` after its I/O: `lines` is the type file,
      `structName` the answer to the prompt. */
  method OpenProgramInUseTypeFile(lines: seq<string>, structName: string) returns (r: Result<(), Error>)
    ensures r == Err(StructNotFound(Strip(structName), None))
  {
    var structs := ParseFile(lines);
    var name := Strip(structName);
    var missing := NotIn(name, structs);
    // the list is empty, so `in` never reaches `Struct.__eq__` and the name
    // is always missing; the `create_mapping()` branch (an undefined name) is dead
    assert missing == Ok(true);
    var res := Levenshtein.FuzzyMatch(name, structs);
    Levenshtein.FuzzyMatchClosest(name, structs);
    return Err(StructNotFound(name, res));
  }
}
