/** The language registry: the three language tags the parser knows, the file
    extension table, `DetectLanguage` and `Supported`. Parsing itself is not modelled;
    its outcome reaches the engine as a parameter. */
module Ts {
  import opened Strings

  const LangPython := "python"
  const LangJavaScript := "javascript"
  const LangTypeScript := "typescript"

  /** The keys of the parser registry. */
  const Languages: set<string> := {LangPython, LangJavaScript, LangTypeScript}

  /** The extension table, keyed by lower-case extension with its dot. */
  const ExtToLang: map<string, string> := map[
    ".py" := LangPython,
    ".js" := LangJavaScript,
    ".mjs" := LangJavaScript,
    ".cjs" := LangJavaScript,
    ".jsx" := LangJavaScript,
    ".ts" := LangTypeScript,
    ".tsx" := LangTypeScript
  ]

  /** Go's `filepath.Ext` with `/` as the separator: scanning back from the end, the
      suffix that starts at the first dot met before any separator; blank when a
      separator or the start of the path comes first. */
  function Ext(path: string): (r: string)
    ensures |r| <= |path|
  {
    if path == [] then []
    else
      var last := path[|path| - 1];
      if last == '/' then []
      else if last == '.' then ['.']
      else
        var e := Ext(path[..|path| - 1]);
        if e == [] then [] else e + [last]
  }

  /** A non-blank extension is a suffix of the path that starts with its only dot
      and crosses no separator. */
  lemma {:induction false} ExtShape(path: string)
    ensures var e := Ext(path);
      e != [] ==> e[0] == '.' && e == path[|path| - |e|..] && '/' !in e && '.' !in e[1..]
  {
    if path != [] {
      var last := path[|path| - 1];
      var init := path[..|path| - 1];
      if last != '/' && last != '.' {
        ExtShape(init);
        var e := Ext(init);
        if e != [] {
          assert path == init + [last];
          assert (e + [last])[1..] == e[1..] + [last];
        }
      }
    }
  }

  /** A name that ends in `.ext` (one dot, no separator after it) has extension `.ext`. */
  lemma {:induction false} ExtOfName(stem: string, ext: string)
    requires |ext| >= 1 && ext[0] == '.'
    requires '/' !in ext && '.' !in ext[1..]
    ensures Ext(stem + ext) == ext
  {
    var p := stem + ext;
    if |ext| > 1 {
      var init := ext[..|ext| - 1];
      assert p[..|p| - 1] == stem + init;
      assert init[1..] == ext[1..][..|ext| - 2];
      assert p[|p| - 1] == ext[|ext| - 1] == ext[1..][|ext| - 2];
      ExtOfName(stem, init);
      assert ext == init + [ext[|ext| - 1]];
    }
  }

  /** A final path element without a dot has no extension, whatever the directories say. */
  lemma {:induction false} ExtStopsAtSeparator(dir: string, name: string)
    requires '.' !in name && '/' !in name
    ensures Ext(dir + ['/'] + name) == []
  {
    var p := dir + ['/'] + name;
    if name != [] {
      var init := name[..|name| - 1];
      assert p[..|p| - 1] == dir + ['/'] + init;
      assert p[|p| - 1] == name[|name| - 1];
      ExtStopsAtSeparator(dir, init);
    }
  }

  lemma PythonIsLower() ensures ToLower(LangPython) == LangPython { ToLowerOfLower(LangPython); }
  lemma JavaScriptIsLower() ensures ToLower(LangJavaScript) == LangJavaScript { ToLowerOfLower(LangJavaScript); }
  lemma TypeScriptIsLower() ensures ToLower(LangTypeScript) == LangTypeScript { ToLowerOfLower(LangTypeScript); }

  /** Each registered tag is its own lower-case form. */
  lemma TagIsLower(l: string)
    requires l == LangPython || l == LangJavaScript || l == LangTypeScript
    ensures ToLower(l) == l
  {
    if l == LangPython {
      PythonIsLower();
    } else if l == LangJavaScript {
      JavaScriptIsLower();
    } else {
      TypeScriptIsLower();
    }
  }

  /** The extension table only yields registered tags, and those are supported. */
  lemma LanguagesAreLower(e: string)
    requires e in ExtToLang
    ensures ExtToLang[e] in Languages
    ensures Supported(ExtToLang[e])
  {
    var l := ExtToLang[e];
    assert l == LangPython || l == LangJavaScript || l == LangTypeScript;
    TagIsLower(l);
  }

  /** `Supported`: the lowercased tag names a registered parser, so exactly the three
      tags in any letter case are supported, and the blank tag is not. */
  predicate Supported(lang: string): (b: bool)
    ensures b <==> ToLower(lang) == LangPython || ToLower(lang) == LangJavaScript
                   || ToLower(lang) == LangTypeScript
    ensures b ==> lang != ""
  {
    ToLower(lang) in Languages
  }

  /** Support ignores letter case: a tag and its lower-case form are supported together. */
  lemma SupportedIgnoresCase(lang: string)
    ensures Supported(lang) <==> Supported(ToLower(lang))
  {
    ToLowerIdempotent(lang);
  }

  /** Without a flag the detected tag is blank or supported. */
  lemma NoFlagIsBlankOrSupported(path: string)
    ensures DetectLanguage("", path) == "" || Supported(DetectLanguage("", path))
  {
    var ext := ToLower(Ext(path));
    if ext in ExtToLang {
      LanguagesAreLower(ext);
    }
  }

  /** `DetectLanguage`: an explicit flag wins and is only lowercased; otherwise the
      lowercased extension is looked up, and an unknown one yields the blank tag. */
  function DetectLanguage(langFlag: string, path: string): (r: string)
    ensures langFlag == "" ==> r == "" || r in Languages
  {
    if langFlag != "" then ToLower(langFlag)
    else
      var ext := ToLower(Ext(path));
      if ext in ExtToLang then ExtToLang[ext] else ""
  }

  /** With a flag the path is ignored, and the detected tag is supported exactly when the flag is. */
  lemma FlagOverridesPath(langFlag: string, p1: string, p2: string)
    requires langFlag != ""
    ensures DetectLanguage(langFlag, p1) == DetectLanguage(langFlag, p2)
    ensures Supported(DetectLanguage(langFlag, p1)) <==> Supported(langFlag)
  {
    ToLowerIdempotent(langFlag);
  }

  /** Without a flag, a file named `stem.ext` gets the language of its extension,
      matched without regard to case. */
  lemma DetectByExtension(stem: string, ext: string)
    requires |ext| >= 1 && ext[0] == '.'
    requires '/' !in ext && '.' !in ext[1..]
    requires ToLower(ext) in ExtToLang
    ensures DetectLanguage("", stem + ext) == ExtToLang[ToLower(ext)]
    ensures Supported(DetectLanguage("", stem + ext))
  {
    ExtensionLookup(stem, ext);
    LanguagesAreLower(ToLower(ext));
  }

  lemma ExtensionLookup(stem: string, ext: string)
    requires |ext| >= 1 && ext[0] == '.'
    requires '/' !in ext && '.' !in ext[1..]
    requires ToLower(ext) in ExtToLang
    ensures DetectLanguage("", stem + ext) == ExtToLang[ToLower(ext)]
  {
    ExtOfName(stem, ext);
  }

  /** An upper-case extension is recognised. */
  lemma UpperCaseExtension(stem: string)
    ensures DetectLanguage("", stem + ".PY") == LangPython
  {
    UpperPyLowers();
    ExtensionLookup(stem, ".PY");
  }

  lemma UpperPyLowers()
    ensures ToLower(".PY") == ".py"
  {
    var r := ToLower(".PY");
    assert r[0] == '.' && r[1] == 'p' && r[2] == 'y';
  }

  /** Without a flag, the blank tag comes back exactly when the path's extension,
      lowercased, is not in the table; a path without an extension is one such case. */
  lemma UnknownExtensionIsBlank(path: string)
    ensures DetectLanguage("", path) == "" <==> ToLower(Ext(path)) !in ExtToLang
    ensures Ext(path) == "" ==> DetectLanguage("", path) == ""
  {
    var ext := ToLower(Ext(path));
    if ext in ExtToLang {
      TableValueIsNotBlank(ext);
    }
    if Ext(path) == "" {
      BlankIsNoExtension();
    }
  }

  lemma TableValueIsNotBlank(e: string)
    requires e in ExtToLang
    ensures ExtToLang[e] != ""
  {
    var l := ExtToLang[e];
    assert l == LangPython || l == LangJavaScript || l == LangTypeScript;
  }

  lemma BlankIsNoExtension()
    ensures ToLower("") !in ExtToLang
  {
    assert ToLower("") == "";
    assert forall e :: e in ExtToLang ==> |e| >= 3;
  }

  /** A file in a dotted directory whose own name has no dot gets no language. */
  lemma DottedDirectoryIsNoExtension()
    ensures DetectLanguage("", "src.d/Makefile") == ""
  {
    ExtStopsAtSeparator("src.d", "Makefile");
    assert "src.d" + ['/'] + "Makefile" == "src.d/Makefile";
  }

  /** A flag that starts with whitespace is kept as it is, lowercased, and is then
      never supported. */
  lemma PaddedFlagIsUnsupported(flag: string, path: string)
    requires flag != [] && IsSpace(flag[0])
    ensures DetectLanguage(flag, path) == ToLower(flag)
    ensures !Supported(DetectLanguage(flag, path))
  {
    ToLowerIdempotent(flag);
    assert ToLower(flag)[0] == flag[0];
    assert LangPython[0] == 'p' && LangJavaScript[0] == 'j' && LangTypeScript[0] == 't';
  }

  /** The flag is lowercased but not trimmed: a padded tag stays padded and is not supported. */
  lemma FlagIsNotTrimmed(path: string)
    ensures DetectLanguage(" PYTHON ", path) == " python "
    ensures !Supported(DetectLanguage(" PYTHON ", path))
  {
    PaddedUpperLowers();
    PaddedFlagIsUnsupported(" PYTHON ", path);
  }

  lemma PaddedUpperLowers()
    ensures ToLower(" PYTHON ") == " python "
  {
    var r := ToLower(" PYTHON ");
    assert r[0] == ' ' && r[1] == 'p' && r[2] == 'y' && r[3] == 't' && r[4] == 'h' && r[5] == 'o' && r[6] == 'n' && r[7] == ' ';
  }

  /** `DetectLanguage` as its test expects it: an explicit flag is trimmed as well as
      lowercased. The extension branch is unchanged. */
  function DetectLanguageTrimmed(langFlag: string, path: string): (r: string)
    ensures langFlag == "" ==> r == DetectLanguage(langFlag, path)
    ensures langFlag != "" && r != "" ==> !IsSpace(r[0]) && !IsSpace(r[|r| - 1])
  {
    if langFlag != "" then
      TrimSpaceLower(langFlag);
      TrimSpaceSpec(ToLower(langFlag));
      ToLower(TrimSpace(langFlag))
    else DetectLanguage("", path)
  }

  /** On a flag without surrounding whitespace the corrected detection agrees with
      the code as written. */
  lemma TrimmedAgreesOnPlainFlags(langFlag: string, path: string)
    requires TrimSpace(langFlag) == langFlag
    ensures DetectLanguageTrimmed(langFlag, path) == DetectLanguage(langFlag, path)
  {
  }

  /** With the correction, a padded flag is supported exactly when its trimmed text is. */
  lemma TrimmedFlagSupport(langFlag: string, path: string)
    requires langFlag != ""
    ensures Supported(DetectLanguageTrimmed(langFlag, path)) <==> Supported(TrimSpace(langFlag))
  {
    ToLowerIdempotent(TrimSpace(langFlag));
  }

  /** With the correction, the language test's padded upper-case flag yields Python. */
  lemma PaddedFlagIsTrimmed()
    ensures DetectLanguageTrimmed(" PYTHON ", "example.js") == LangPython
    ensures Supported(DetectLanguageTrimmed(" PYTHON ", "example.js"))
  {
    assert " PYTHON " == [' '] + "PYTHON" + [' '];
    TrimSpaceOfPadded("PYTHON");
    UpperPythonLowers();
    PythonIsLower();
  }

  lemma UpperPythonLowers()
    ensures ToLower("PYTHON") == LangPython
  {
    var r := ToLower("PYTHON");
    assert r[0] == 'p' && r[1] == 'y' && r[2] == 't' && r[3] == 'h' && r[4] == 'o' && r[5] == 'n';
  }
}
