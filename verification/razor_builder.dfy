/**
  The fluent PDF builder of the Razor package. Like the core builder it keeps
  lazily defaulted settings, but its page comes from rendering a Razor view
  with a model, and the stylesheet is pasted into the page inside a `<style>`
  element.

  The file system, the view renderer and `Environment.NewLine` are
  parameters.
*/
module RazorBuilder {
  import opened Wrappers
  import opened PdfSettings
  import opened TextReplace
  import opened HeadInjection

  /** The FileNotFoundException InjectCSS throws, with the file name it names. */
  datatype FileNotFound = FileNotFound(file: string)

  /** The block BuildHTMLAsync splices in front of `</head>`: the stylesheet text in a `<style>` element. */
  function StyleBlock(css: string, newline: string): string {
    "<style>" + newline + css + newline + "</style>" + newline
  }

  /** BuildHTMLAsync's rewrite of the rendered page: nothing when no stylesheet is set, otherwise the style element before every `</head>`. */
  function InjectStyle(html: string, includeCss: Option<string>, newline: string): string {
    if includeCss.None? || includeCss.value == "" then html
    else InsertBeforeHeadClose(html, StyleBlock(includeCss.value, newline))
  }

  /**
    With no stylesheet, or an empty one, the rendered page is unchanged;
    otherwise each `</head>` is preceded by `<style>`, the stylesheet text and
    `</style>`, each followed by the line terminator, and nothing else changes:
    the pieces between the page's `</head>` tags are joined by that block and
    `</head>`.
  */
  lemma StyleBeforeEveryHeadClose(html: string, includeCss: Option<string>, newline: string)
    ensures InjectStyle(html, includeCss, newline) ==
      if includeCss.None? || includeCss.value == "" then html
      else Join(Pieces(html, HeadClose), "<style>" + newline + includeCss.value + newline + "</style>" + newline + HeadClose)
  {
    if includeCss.Some? && includeCss.value != "" {
      BlockBeforeEveryHeadClose(html, StyleBlock(includeCss.value, newline));
    }
  }

  /** A rendered page without `</head>` gets no stylesheet at all. */
  lemma NoHeadNoStyle(html: string, includeCss: Option<string>, newline: string)
    requires !Occurs(html, HeadClose)
    ensures InjectStyle(html, includeCss, newline) == html
  {
    if includeCss.Some? && includeCss.value != "" {
      NoHeadCloseUnchanged(html, StyleBlock(includeCss.value, newline));
    }
  }

  /** The builder; `M` is the type of the view model. */
  class PdfBuilder<M> {
    /** the stylesheet text, null until InjectCSS succeeds */
    var includeCss: Option<string>
    /** the backing field of the lazy ObjectSettings property */
    var objectSettings: Option<ObjectSettings>
    /** the backing field of the lazy GlobalSettings property */
    var globalSettings: Option<GlobalSettings>
    /** the Razor view to render */
    var view: Option<string>
    /** the model the view is rendered with */
    var model: Option<M>

    constructor ()
      ensures includeCss.None? && objectSettings.None? && globalSettings.None?
      ensures view.None? && model.None?
    {
      includeCss := None;
      objectSettings := None;
      globalSettings := None;
      view := None;
      model := None;
    }

    /** The ObjectSettings getter: created with the UTF-8 default on first use, then reused. */
    method GetObjectSettings() returns (o: ObjectSettings)
      modifies this
      ensures old(objectSettings).None? ==> o == DefaultObject
      ensures old(objectSettings).Some? ==> o == old(objectSettings).value
      ensures objectSettings == Some(o)
      ensures globalSettings == old(globalSettings) && includeCss == old(includeCss)
      ensures view == old(view) && model == old(model)
    {
      if objectSettings.None? {
        objectSettings := Some(DefaultObject);
      }
      o := objectSettings.value;
    }

    /** The GlobalSettings getter: created as colour, portrait, A4 on first use, then reused. */
    method GetGlobalSettings() returns (g: GlobalSettings)
      modifies this
      ensures old(globalSettings).None? ==> g == DefaultGlobal
      ensures old(globalSettings).Some? ==> g == old(globalSettings).value
      ensures globalSettings == Some(g)
      ensures objectSettings == old(objectSettings) && includeCss == old(includeCss)
      ensures view == old(view) && model == old(model)
    {
      if globalSettings.None? {
        globalSettings := Some(DefaultGlobal);
      }
      g := globalSettings.value;
    }

    /** RazorView: the view and its model are stored as given. */
    method RazorView(v: string, m: M)
      modifies this
      ensures view == Some(v) && model == Some(m)
      ensures includeCss == old(includeCss)
      ensures objectSettings == old(objectSettings) && globalSettings == old(globalSettings)
    {
      view := Some(v);
      model := Some(m);
    }

    /** Settings: the action is applied to a fresh GlobalSettings, which replaces the current one. */
    method Settings(action: GlobalSettings -> GlobalSettings)
      modifies this
      ensures globalSettings == Some(action(FreshGlobal))
      ensures objectSettings == old(objectSettings) && includeCss == old(includeCss)
      ensures view == old(view) && model == old(model)
    {
      globalSettings := Some(FreshGlobal);
      globalSettings := Some(action(globalSettings.value));
    }

    /** InjectCSS: a missing file fails and changes nothing; otherwise the file's whole text is kept. */
    method InjectCss(file: string, fileExists: bool, text: string) returns (r: Result<(), FileNotFound>)
      modifies this
      ensures !fileExists ==> r == Failure(FileNotFound(file)) && includeCss == old(includeCss)
      ensures fileExists ==> r.Success? && includeCss == Some(text)
      ensures objectSettings == old(objectSettings) && globalSettings == old(globalSettings)
      ensures view == old(view) && model == old(model)
    {
      if !fileExists {
        return Failure(FileNotFound(file));
      }
      includeCss := Some(text);
      r := Success(());
    }

    /** BuildHTMLAsync: the view rendered with the model, with the stylesheet spliced in; the builder is not changed. */
    method BuildHtmlAsync(render: (Option<string>, Option<M>) -> string, newline: string) returns (html: string)
      ensures html == InjectStyle(render(view, model), includeCss, newline)
    {
      html := render(view, model);
      if includeCss.Some? && includeCss.value != "" {
        html := ReplaceAll(html, HeadClose, "<style>" + newline + includeCss.value + newline + "</style>" + newline + HeadClose);
      }
    }

    /**
      BuildAsync up to the conversion: an action replaces the object settings by
      a fresh one it has set up; the object settings, which the builder keeps,
      receive the built page as their content; and the document holds the
      global settings and that one object.
    */
    method BuildAsync(action: Option<ObjectSettings -> ObjectSettings>,
                      render: (Option<string>, Option<M>) -> string, newline: string)
      returns (doc: HtmlToPdfDocument)
      modifies this
      ensures var base :=
          if action.Some? then action.value(FreshObject)
          else if old(objectSettings).Some? then old(objectSettings).value
          else DefaultObject;
        objectSettings == Some(base.(htmlContent := Some(InjectStyle(render(view, model), includeCss, newline))))
      ensures globalSettings == Some(if old(globalSettings).Some? then old(globalSettings).value else DefaultGlobal)
      ensures includeCss == old(includeCss) && view == old(view) && model == old(model)
      ensures doc == HtmlToPdfDocument(globalSettings.value, [objectSettings.value])
    {
      if action.Some? {
        objectSettings := Some(FreshObject);
        var created := GetObjectSettings();
        objectSettings := Some(action.value(created));
      }
      var content := BuildHtmlAsync(render, newline);
      var objSetting := GetObjectSettings();
      objSetting := objSetting.(htmlContent := Some(content));
      objectSettings := Some(objSetting);
      var global := GetGlobalSettings();
      doc := HtmlToPdfDocument(global, [objSetting]);
    }
  }
}
