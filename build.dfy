/** The text rendering of `run()` in scripts/build.ts: from the listing of
    component directories and composable directories, the contents of the two
    generated barrel files (the component index and the composable index).
    The listings arrive as parameters; enumerating the directories and
    writing the files are not modelled. */
module Build {
  import opened Strings
  import opened Utils

  /** The comment line at the top of both generated files. It is written as
      two literals because the verifier handles a long single literal poorly;
      the value is the one line of the source. */
  const Header: string := "// Please do not touch this file." + " It will be automatically updated."

  /** The exported identifier of a component directory: the `Vs` prefix,
      the upper-cased first character, then the rest of the name verbatim. */
  function ExportName(component: string): (name: string)
    ensures |name| == |component| + 2
    ensures name[..2] == "Vs"
    ensures component != [] ==>
      name[2] == UpperAscii(component[0]) && name[3..] == component[1..]
  {
    "Vs" + Capitalize(component)
  }

  /** The default import of a component's `index.vue`, bound to its
      exported identifier. */
  function ImportLine(component: string): (line: string)
    ensures |line| == 2 * |component| + 29
    ensures line[..9] == "import Vs"
    ensures line[|line| - 11..] == "/index.vue\""
  {
    "import " + ExportName(component) + " from \"./" + component + "/index.vue\""
  }

  /** The wildcard re-export of a composable directory: the directory name
      appears verbatim between `./` and the closing quote. */
  function ReexportLine(composable: string): (line: string)
    ensures |line| == |composable| + 18
    ensures line[..17] == "export * from \"./"
    ensures line[17..|line| - 1] == composable
    ensures line[|line| - 1] == '"'
  {
    "export * from \"./" + composable + "\""
  }

  /** One exported identifier per component, in listing order. */
  function ExportNames(components: seq<string>): (names: seq<string>)
    ensures |names| == |components|
    ensures forall i :: 0 <= i < |components| ==> names[i] == ExportName(components[i])
  {
    if components == [] then []
    else [ExportName(components[0])] + ExportNames(components[1..])
  }

  /** One import line per component, in listing order. */
  function ImportLines(components: seq<string>): (lines: seq<string>)
    ensures |lines| == |components|
    ensures forall i :: 0 <= i < |components| ==> lines[i] == ImportLine(components[i])
  {
    if components == [] then []
    else [ImportLine(components[0])] + ImportLines(components[1..])
  }

  /** One re-export line per composable, in listing order. */
  function ReexportLines(composables: seq<string>): (lines: seq<string>)
    ensures |lines| == |composables|
    ensures forall i :: 0 <= i < |composables| ==> lines[i] == ReexportLine(composables[i])
  {
    if composables == [] then []
    else [ReexportLine(composables[0])] + ReexportLines(composables[1..])
  }

  /** The component index: a blank line, the header, the import lines, a
      blank line and an `export { ... }` block listing every identifier. */
  function RenderComponentIndex(components: seq<string>): (text: string)
    ensures "\n" + Header + "\n" <= text
    ensures |text| >= 3 && text[|text| - 3..] == "\n}\n"
  {
    "\n" + Header + "\n"
    + Join(ImportLines(components), "\n")
    + "\n\nexport {\n  "
    + Join(ExportNames(components), ",\n  ")
    + "\n}\n"
  }

  /** The composable index: a blank line, the header and the re-export
      lines, closed by a newline. */
  function RenderComposableIndex(composables: seq<string>): (text: string)
    ensures "\n" + Header + "\n" <= text
    ensures |text| >= 1 && text[|text| - 1] == '\n'
  {
    "\n" + Header + "\n"
    + Join(ReexportLines(composables), "\n")
    + "\n"
  }

  /** The rendering part of `run()`: the two `for ... of` loops fill
      `imports`, `exports` and `composableImports` with `push`, and the two
      template literals assemble the file contents. */
  method Render(components: seq<string>, composables: seq<string>)
    returns (output: string, composableOutput: string)
    ensures output == RenderComponentIndex(components)
    ensures composableOutput == RenderComposableIndex(composables)
  {
    var imports: seq<string> := [];
    var exports: seq<string> := [];
    var composableImports: seq<string> := [];

    for i := 0 to |components|
      invariant |imports| == i && |exports| == i
      invariant forall k :: 0 <= k < i ==> exports[k] == "Vs" + Capitalize(components[k])
      invariant forall k :: 0 <= k < i ==>
        imports[k] == "import " + exports[k] + " from \"./" + components[k] + "/index.vue\""
    {
      var component := components[i];
      var name := "Vs" + Capitalize(component);
      imports := imports + ["import " + name + " from \"./" + component + "/index.vue\""];
      exports := exports + [name];
    }

    for i := 0 to |composables|
      invariant |composableImports| == i
      invariant forall k :: 0 <= k < i ==>
        composableImports[k] == "export * from \"./" + composables[k] + "\""
    {
      var composable := composables[i];
      composableImports := composableImports + ["export * from \"./" + composable + "\""];
    }

    assert imports == ImportLines(components);
    assert exports == ExportNames(components);
    assert composableImports == ReexportLines(composables);

    output := "\n" + Header + "\n"
      + Join(imports, "\n")
      + "\n\nexport {\n  "
      + Join(exports, ",\n  ")
      + "\n}\n";

    composableOutput := "\n" + Header + "\n"
      + Join(composableImports, "\n")
      + "\n";
  }

  /** The body of the `export { ... }` block as the file shows it: each
      identifier on its own line, indented by two spaces, with a comma after
      every identifier but the last. */
  function ExportEntryLines(names: seq<string>): (lines: seq<string>)
  {
    seq(|names|, i requires 0 <= i < |names| =>
      "  " + names[i] + (if i + 1 < |names| then "," else ""))
  }

  /** Every import line binds the very identifier that the export block
      lists at the same position, and imports it from that component's
      `index.vue`. */
  lemma ImportBindsExportedName(components: seq<string>, i: nat)
    requires i < |components|
    ensures |ImportLines(components)| == |ExportNames(components)| == |components|
    ensures ImportLines(components)[i] ==
      "import " + ExportNames(components)[i] + " from \"./" + components[i] + "/index.vue\""
  {
  }

  /** The import line of `button` binds `VsButton` to its `index.vue`. */
  lemma ExampleImportLine()
    ensures ImportLine("button") == "import VsButton from \"./button/index.vue\""
  {
  }

  /** Listing `button` then `alert` exports `VsButton` then `VsAlert`, in
      that order. */
  lemma ExampleExportNames()
    ensures ExportNames(["button", "alert"]) == ["VsButton", "VsAlert"]
    ensures Join(ExportNames(["button", "alert"]), ",\n  ") == "VsButton,\n  VsAlert"
  {
    CapitalizeExamples();
    assert ExportName("button") == "VsButton";
    assert ExportName("alert") == "VsAlert";
    var names := ExportNames(["button", "alert"]);
    assert names == ["VsButton", "VsAlert"];
    assert names[1..] == ["VsAlert"];
  }

  /** The whole component index for `button` then `alert`: one import line
      per component, then both identifiers in the export block. */
  lemma ExampleButtonAlert()
    ensures RenderComponentIndex(["button", "alert"]) ==
      "\n" + Header + "\n"
      + ImportLine("button") + "\n" + ImportLine("alert")
      + "\n\nexport {\n  VsButton,\n  VsAlert\n}\n"
  {
  }

  /** With nothing listed both files are still complete: the component index
      has an empty import section and an empty export block, the composable
      index is the header alone. */
  lemma EmptyListings()
    ensures RenderComponentIndex([]) == "\n" + Header + "\n\n\nexport {\n  \n}\n"
    ensures RenderComposableIndex([]) == "\n" + Header + "\n\n"
  {
  }

  /** The header comment is a single line. */
  lemma HeaderSingleLine()
    ensures '\n' !in Header
  {
  }

  /** A component name without a newline gives an import line without one. */
  lemma ImportLineSingleLine(component: string)
    requires '\n' !in component
    ensures '\n' !in ExportName(component)
    ensures '\n' !in ImportLine(component)
  {
    assert '\n' !in Capitalize(component) by {
      CapitalizeKeepsNonLetters(component, '\n');
    }
    var name := ExportName(component);
    assert '\n' !in name;
    var front := "import " + name + " from \"./";
    assert '\n' !in front;
    assert ImportLine(component) == front + component + "/index.vue\"";
  }

  /** A composable name without a newline gives a re-export line without one. */
  lemma ReexportLineSingleLine(composable: string)
    requires '\n' !in composable
    ensures '\n' !in ReexportLine(composable)
  {
  }

  /** With at least one identifier, the `export` block reads back as one
      indented line per identifier. */
  lemma {:induction false} ExportBlockLines(names: seq<string>)
    requires names != []
    requires forall i :: 0 <= i < |names| ==> '\n' !in names[i]
    ensures Lines("  " + Join(names, ",\n  ")) == ExportEntryLines(names)
    decreases |names|
  {
    if |names| == 1 {
      assert '\n' !in "  " + names[0];
      SplitNoSeparator("  " + names[0], '\n');
      assert ExportEntryLines(names)[0] == "  " + names[0];
    } else {
      var first := "  " + names[0] + ",";
      var rest := "  " + Join(names[1..], ",\n  ");
      assert "  " + Join(names, ",\n  ") == first + ['\n'] + rest;
      SplitAround(first, '\n', rest);
      SplitNoSeparator(first, '\n');
      ExportBlockLines(names[1..]);
      assert ExportEntryLines(names) == [first] + ExportEntryLines(names[1..]);
    }
  }

  /** Separated by a newline, two texts contribute their lines side by side. */
  lemma LinesAround(x: string, y: string)
    ensures Lines(x + "\n" + y) == Lines(x) + Lines(y)
  {
    SplitAround(x, '\n', y);
  }

  /** The fixed frame of the component index, read line by line, whatever
      single-line header heads it and whatever joined imports and joined
      identifiers fill it. */
  lemma ComponentFrameLines(header: string, imports: string, exports: string)
    requires '\n' !in header
    ensures Lines("\n" + header + "\n" + imports + "\n\nexport {\n  " + exports + "\n}\n") ==
      ["", header] + Lines(imports) + ["", "export {"] + Lines("  " + exports) + ["}", ""]
  {
    var exportBlock := "export {\n  " + exports + "\n}\n";
    var rest := "" + "\n" + exportBlock;
    var body := imports + "\n" + rest;
    var headed := header + "\n" + body;
    assert "\n" + header + "\n" + imports + "\n\nexport {\n  " + exports + "\n}\n" == "" + "\n" + headed;
    var tail := ["export {"] + Lines("  " + exports) + ["}", ""];
    assert Lines(rest) == [""] + tail by {
      ExportBlockFrameLines(exports);
      LinesAround("", exportBlock);
      SplitNoSeparator("", '\n');
    }
    assert Lines(headed) == [header] + (Lines(imports) + ([""] + tail)) by {
      LinesAround(imports, rest);
      LinesAround(header, body);
      SplitNoSeparator(header, '\n');
    }
    assert Lines("" + "\n" + headed) == [""] + ([header] + (Lines(imports) + ([""] + tail))) by {
      LinesAround("", headed);
      SplitNoSeparator("", '\n');
    }
    Regroup(header, Lines(imports), Lines("  " + exports));
  }

  /** Regroups the concatenation built step by step in `ComponentFrameLines`
      into the left-nested form of its postcondition. */
  lemma Regroup(header: string, imports: seq<string>, block: seq<string>)
    ensures [""] + ([header] + (imports + ([""] + (["export {"] + block + ["}", ""])))) ==
      ["", header] + imports + ["", "export {"] + block + ["}", ""]
  {
  }

  /** The `export { ... }` block with its closing line, read line by line. */
  lemma ExportBlockFrameLines(exports: string)
    ensures Lines("export {\n  " + exports + "\n}\n") == ["export {"] + Lines("  " + exports) + ["}", ""]
  {
    var block := "  " + exports;
    ClosingLines();
    ExportBlockText(exports);
    LinesAround(block, "}\n");
    LinesAround("export {", block + "\n" + "}\n");
    SplitNoSeparator("export {", '\n');
  }

  /** The closing brace line followed by the final empty line. */
  lemma ClosingLines()
    ensures Lines("}\n") == ["}", ""]
  {
    assert "}\n" == "}" + "\n" + "";
    LinesAround("}", "");
    SplitNoSeparator("}", '\n');
    SplitNoSeparator("", '\n');
  }

  /** Cuts the template literal around the export block at its newlines,
      so that `LinesAround` applies. */
  lemma ExportBlockText(exports: string)
    ensures "export {\n  " + exports + "\n}\n" == "export {" + "\n" + (("  " + exports) + "\n" + "}\n")
  {
  }

  /** The fixed frame of the composable index, read line by line. */
  lemma ComposableFrameLines(header: string, lines: string)
    requires '\n' !in header
    ensures Lines("\n" + header + "\n" + lines + "\n") == ["", header] + Lines(lines) + [""]
  {
    var t2 := lines + "\n" + "";
    var t1 := header + "\n" + t2;
    assert "\n" + header + "\n" + lines + "\n" == "" + "\n" + t1;
    SplitNoSeparator(header, '\n');
    LinesAround(lines, "");
    LinesAround(header, t2);
    LinesAround("", t1);
  }

  /** The import section reads back as exactly the import lines, or as one
      empty line when there are none. */
  lemma ImportSectionLines(components: seq<string>)
    requires forall i :: 0 <= i < |components| ==> '\n' !in components[i]
    ensures Lines(Join(ImportLines(components), "\n")) ==
      if components == [] then [""] else ImportLines(components)
  {
    if components == [] {
      SplitNoSeparator("", '\n');
    } else {
      forall i | 0 <= i < |components|
        ensures '\n' !in ImportLines(components)[i]
      {
        ImportLineSingleLine(components[i]);
      }
      SplitJoin(ImportLines(components), '\n');
    }
  }

  /** The export block reads back as exactly one entry per component, or as
      one line holding the indentation alone when there are none. */
  lemma ExportSectionLines(components: seq<string>)
    requires forall i :: 0 <= i < |components| ==> '\n' !in components[i]
    ensures Lines("  " + Join(ExportNames(components), ",\n  ")) ==
      if components == [] then ["  "] else ExportEntryLines(ExportNames(components))
  {
    if components == [] {
      assert "  " + Join(ExportNames(components), ",\n  ") == "  ";
      SplitNoSeparator("  ", '\n');
    } else {
      forall i | 0 <= i < |components|
        ensures '\n' !in ExportNames(components)[i]
      {
        ImportLineSingleLine(components[i]);
      }
      ExportBlockLines(ExportNames(components));
    }
  }

  /** The re-export section reads back as exactly the re-export lines. */
  lemma ReexportSectionLines(composables: seq<string>)
    requires composables != []
    requires forall i :: 0 <= i < |composables| ==> '\n' !in composables[i]
    ensures Lines(Join(ReexportLines(composables), "\n")) == ReexportLines(composables)
  {
    forall i | 0 <= i < |composables|
      ensures '\n' !in ReexportLines(composables)[i]
    {
      ReexportLineSingleLine(composables[i]);
    }
    SplitJoin(ReexportLines(composables), '\n');
  }

  /** Read line by line, the component index is the blank line and the
      header, exactly one import line per component in listing order, a
      blank line, `export {`, exactly one indented entry per component in
      listing order, and the closing brace. */
  lemma ComponentIndexLines(components: seq<string>)
    requires forall i :: 0 <= i < |components| ==> '\n' !in components[i]
    ensures Lines(RenderComponentIndex(components)) ==
      ["", Header]
      + (if components == [] then [""] else ImportLines(components))
      + ["", "export {"]
      + (if components == [] then ["  "] else ExportEntryLines(ExportNames(components)))
      + ["}", ""]
  {
    var imports := Join(ImportLines(components), "\n");
    var exports := Join(ExportNames(components), ",\n  ");
    HeaderSingleLine();
    ComponentFrameLines(Header, imports, exports);
    ImportSectionLines(components);
    ExportSectionLines(components);
  }

  /** Read line by line, the composable index is the blank line and the
      header, exactly one re-export line per composable in listing order,
      and a final empty line. */
  lemma ComposableIndexLines(composables: seq<string>)
    requires forall i :: 0 <= i < |composables| ==> '\n' !in composables[i]
    ensures Lines(RenderComposableIndex(composables)) ==
      ["", Header]
      + (if composables == [] then [""] else ReexportLines(composables))
      + [""]
  {
    var lines := Join(ReexportLines(composables), "\n");
    HeaderSingleLine();
    ComposableFrameLines(Header, lines);
    if composables == [] {
      SplitNoSeparator("", '\n');
    } else {
      ReexportSectionLines(composables);
    }
  }
}
