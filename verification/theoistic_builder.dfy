/**
  The fluent PDF builder of the core library. It holds lazily defaulted global
  and object settings and an optional stylesheet link, and assembles the
  one-object document that the converter turns into a PDF.

  The file system and `Environment.NewLine` are parameters: whether the file
  exists, its full path, and the line terminator.
*/
module TheoisticBuilder {
  import opened Wrappers
  import opened PdfSettings
  import opened TextReplace
  import opened HeadInjection

  /** The FileNotFoundException InjectCSS throws, with the file name it names. */
  datatype FileNotFound = FileNotFound(file: string)

  // ---------------------------------------------------------------------------
  // The stylesheet link

  /** How one character of the full path appears in the link URL. */
  function EscapeChar(c: char): string {
    if c == '\\' then "/" else if c == ' ' then "%20" else [c]
  }

  /** The full path with every character escaped in turn. */
  function EscapePath(path: string): string {
    if path == [] then "" else EscapeChar(path[0]) + EscapePath(path[1..])
  }

  /** `"file:///"` and the full path, after replacing `\` by `/` and then every space by `%20`. */
  function FileUrl(fullPath: string): string {
    "file:///" + ReplaceAll(ReplaceAll(fullPath, "\\", "/"), " ", "%20")
  }

  /** The stylesheet tag InjectCSS stores. */
  function CssLink(fullPath: string): string {
    "<link href=\"" + FileUrl(fullPath) + "\" rel=\"stylesheet\" type=\"text/css\" media=\"screen\">"
  }

  /**
    The two replacements together escape the path one character at a time:
    a backslash becomes `/`, a space becomes `%20`, and every other character
    is kept, in order.
  */
  lemma {:induction false} FileUrlEscapes(fullPath: string)
    ensures FileUrl(fullPath) == "file:///" + EscapePath(fullPath)
  {
    TwoReplacementsEscape(fullPath);
  }

  lemma {:induction false} TwoReplacementsEscape(path: string)
    ensures ReplaceAll(ReplaceAll(path, "\\", "/"), " ", "%20") == EscapePath(path)
    decreases |path|
  {
    if path != [] {
      var c := path[0];
      assert path == [c] + path[1..];
      ReplaceCharCons(c, path[1..], '\\', "/");
      var first := if c == '\\' then "/" else [c];
      ReplaceCharConcat(first, ReplaceAll(path[1..], "\\", "/"), ' ', "%20");
      if c == '\\' {
        assert first == ['/'] + [];
        ReplaceCharCons('/', [], ' ', "%20");
      } else {
        assert first == [c] + [];
        ReplaceCharCons(c, [], ' ', "%20");
      }
      TwoReplacementsEscape(path[1..]);
    }
  }

  /** The escaped path holds no backslash and no space. */
  lemma {:induction false} EscapedPathClean(path: string)
    ensures '\\' !in EscapePath(path) && ' ' !in EscapePath(path)
  {
    if path != [] {
      EscapedPathClean(path[1..]);
    }
  }

  /** A path without backslashes and spaces appears in the URL as it is. */
  lemma {:induction false} CleanPathKept(path: string)
    requires '\\' !in path && ' ' !in path
    ensures EscapePath(path) == path
  {
    if path != [] {
      CleanPathKept(path[1..]);
      assert path == [path[0]] + path[1..];
    }
  }

  /** After `file:///` the URL holds no backslash and no space. */
  lemma FileUrlClean(fullPath: string)
    ensures var url := FileUrl(fullPath);
      |url| >= 8 && url[..8] == "file:///" && '\\' !in url[8..] && ' ' !in url[8..]
  {
    FileUrlEscapes(fullPath);
    EscapedPathClean(fullPath);
    assert FileUrl(fullPath)[8..] == EscapePath(fullPath);
  }

  // ---------------------------------------------------------------------------
  // The head injection

  /** The block BuildAsync splices in front of `</head>`: the link between two line terminators. */
  function CssBlock(css: string, newline: string): string {
    newline + css + newline
  }

  /** BuildAsync's rewrite of the page: nothing when no stylesheet is set, otherwise the link before every `</head>`. */
  function InjectIncludedCss(html: string, includeCss: Option<string>, newline: string): string {
    if includeCss.None? || includeCss.value == "" then html
    else InsertBeforeHeadClose(html, CssBlock(includeCss.value, newline))
  }

  /**
    With no stylesheet, or an empty one, the page is unchanged; otherwise each
    `</head>` is preceded by the line terminator, the stylesheet tag and the
    line terminator, and nothing else changes: the pieces between the page's
    `</head>` tags are joined by that block and `</head>`.
  */
  lemma CssBeforeEveryHeadClose(html: string, includeCss: Option<string>, newline: string)
    ensures InjectIncludedCss(html, includeCss, newline) ==
      if includeCss.None? || includeCss.value == "" then html
      else Join(Pieces(html, HeadClose), newline + includeCss.value + newline + HeadClose)
  {
    if includeCss.Some? && includeCss.value != "" {
      BlockBeforeEveryHeadClose(html, CssBlock(includeCss.value, newline));
    }
  }

  // ---------------------------------------------------------------------------
  // The builder

  class PdfBuilder {
    /** the stylesheet tag, null until InjectCSS succeeds */
    var includeCss: Option<string>
    /** the backing field of the lazy ObjectSettings property */
    var objectSettings: Option<ObjectSettings>
    /** the backing field of the lazy GlobalSettings property */
    var globalSettings: Option<GlobalSettings>

    constructor ()
      ensures includeCss.None? && objectSettings.None? && globalSettings.None?
    {
      includeCss := None;
      objectSettings := None;
      globalSettings := None;
    }

    /** The ObjectSettings getter: created with the UTF-8 default on first use, then reused. */
    method GetObjectSettings() returns (o: ObjectSettings)
      modifies this
      ensures old(objectSettings).None? ==> o == DefaultObject
      ensures old(objectSettings).Some? ==> o == old(objectSettings).value
      ensures objectSettings == Some(o)
      ensures globalSettings == old(globalSettings) && includeCss == old(includeCss)
    {
      if objectSettings.None? {
        objectSettings := Some(DefaultObject);
      }
      o := objectSettings.value;
    }

    /** The GlobalSettings getter: created as colour, portrait, A4 on first use, then reused. */
    method GetGlobalSettings() returns (g: GlobalSettings)
      modifies this
      ensures old(globalSettings).None? ==> g == DefaultGlobal
      ensures old(globalSettings).Some? ==> g == old(globalSettings).value
      ensures globalSettings == Some(g)
      ensures objectSettings == old(objectSettings) && includeCss == old(includeCss)
    {
      if globalSettings.None? {
        globalSettings := Some(DefaultGlobal);
      }
      g := globalSettings.value;
    }

    /** Settings: the action is applied to a fresh GlobalSettings, which replaces the current one. */
    method Settings(action: GlobalSettings -> GlobalSettings)
      modifies this
      ensures globalSettings == Some(action(FreshGlobal))
      ensures objectSettings == old(objectSettings) && includeCss == old(includeCss)
    {
      globalSettings := Some(FreshGlobal);
      globalSettings := Some(action(globalSettings.value));
    }

    /** InjectCSS: a missing file fails and changes nothing; otherwise the stylesheet tag for its full path is kept. */
    method InjectCss(file: string, fileExists: bool, fullPath: string) returns (r: Result<(), FileNotFound>)
      modifies this
      ensures !fileExists ==> r == Failure(FileNotFound(file)) && includeCss == old(includeCss)
      ensures fileExists ==> r.Success? && includeCss == Some(CssLink(fullPath))
      ensures objectSettings == old(objectSettings) && globalSettings == old(globalSettings)
    {
      if !fileExists {
        return Failure(FileNotFound(file));
      }
      var url := "file:///" + ReplaceAll(ReplaceAll(fullPath, "\\", "/"), " ", "%20");
      includeCss := Some("<link href=\"" + url + "\" rel=\"stylesheet\" type=\"text/css\" media=\"screen\">");
      r := Success(());
    }

    /**
      BuildAsync up to the conversion: an action replaces the object settings by
      a fresh one it has set up; the page gets the stylesheet; the object
      settings, which the builder keeps, receive the page as their content; and
      the document holds the global settings and that one object.
    */
    method BuildAsync(html: string, action: Option<ObjectSettings -> ObjectSettings>, newline: string)
      returns (doc: HtmlToPdfDocument)
      modifies this
      ensures var base :=
          if action.Some? then action.value(FreshObject)
          else if old(objectSettings).Some? then old(objectSettings).value
          else DefaultObject;
        objectSettings == Some(base.(htmlContent := Some(InjectIncludedCss(html, includeCss, newline))))
      ensures globalSettings == Some(if old(globalSettings).Some? then old(globalSettings).value else DefaultGlobal)
      ensures includeCss == old(includeCss)
      ensures doc == HtmlToPdfDocument(globalSettings.value, [objectSettings.value])
    {
      if action.Some? {
        objectSettings := Some(FreshObject);
        var created := GetObjectSettings();
        objectSettings := Some(action.value(created));
      }
      var content := html;
      if includeCss.Some? && includeCss.value != "" {
        content := ReplaceAll(content, HeadClose, newline + includeCss.value + newline + HeadClose);
      }
      var objSetting := GetObjectSettings();
      objSetting := objSetting.(htmlContent := Some(content));
      objectSettings := Some(objSetting);
      var global := GetGlobalSettings();
      doc := HtmlToPdfDocument(global, [objSetting]);
    }
  }
}
