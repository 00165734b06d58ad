/**
  The conversion sequence of ThreadSafeHTMLToPDFConverter: validating the
  document, marshaling its settings into the native setters, driving the fixed
  call sequence of the native library, and building the event arguments of the
  native callbacks. The worker thread that serialises conversions is not part
  of this model; `ConvertDocument` is what one job runs on it.
*/
module Converter {
  import opened Wrappers
  import opened Marshal
  import opened Backend

  /** An object of a document: its settings properties and the bytes of its content. */
  datatype ContentObject = ContentObject(settings: seq<Field>, content: seq<byte>)

  /**
    A document: its own properties, which the walk visits with the global setter
    (the global settings are an unkeyed nested settings object among them), and
    its objects, any of which may be null.
  */
  datatype Document = Document(settings: seq<Field>, objects: seq<Option<ContentObject>>)

  /** The ArgumentException for a document without objects. */
  datatype ConvertError = NoObjects

  datatype PhaseChangedArgs = PhaseChangedArgs(document: Option<Document>, phaseCount: int, currentPhase: int, description: string)
  datatype ProgressChangedArgs = ProgressChangedArgs(document: Option<Document>, description: string)
  datatype FinishedArgs = FinishedArgs(document: Option<Document>, success: bool)
  datatype ErrorArgs = ErrorArgs(document: Option<Document>, message: string)
  datatype WarningArgs = WarningArgs(document: Option<Document>, message: string)

  // ---------------------------------------------------------------------------
  // The call sequence, as a specification

  function NonNullCount(objs: seq<Option<ContentObject>>): nat {
    if objs == [] then 0 else (if objs[0].Some? then 1 else 0) + NonNullCount(objs[1..])
  }

  /** The contents of the non-null objects, in order. */
  function NonNullContents(objs: seq<Option<ContentObject>>): seq<seq<byte>> {
    if objs == [] then []
    else (if objs[0].Some? then [objs[0].value.content] else []) + NonNullContents(objs[1..])
  }

  /** The setter calls walking a non-null settings object makes on handle `h`, property by property. */
  function ConfigCalls(h: Handle, fields: seq<Field>, isGlobal: bool): seq<Call>
    decreases fields
  {
    if fields == [] then [] else PropertyCalls(h, fields[0], isGlobal) + ConfigCalls(h, fields[1..], isGlobal)
  }

  /** The setter calls of one property: none for a null, its own for a keyed one, the nested walk for an unkeyed one. */
  function PropertyCalls(h: Handle, f: Field, isGlobal: bool): seq<Call>
    decreases f
  {
    if f.value.Null? then []
    else if f.key.Some? then SetterCalls(h, Emit(f.key.value, f.value), isGlobal)
    else if f.value.Nested? then ConfigCalls(h, f.value.fields, isGlobal)
    else []
  }

  /** The walk issues the flattened settings of the object, in order, each as one setter call. */
  lemma {:induction false} ConfigCallsFlatten(h: Handle, fields: seq<Field>, isGlobal: bool)
    ensures ConfigCalls(h, fields, isGlobal) == SetterCalls(h, Flatten(fields), isGlobal)
    decreases fields
  {
    if fields != [] {
      PropertyCallsFlatten(h, fields[0], isGlobal);
      ConfigCallsFlatten(h, fields[1..], isGlobal);
      SetterCallsConcat(h, FieldSettings(fields[0]), Flatten(fields[1..]), isGlobal);
    }
  }

  lemma {:induction false} PropertyCallsFlatten(h: Handle, f: Field, isGlobal: bool)
    ensures PropertyCalls(h, f, isGlobal) == SetterCalls(h, FieldSettings(f), isGlobal)
    decreases f
  {
    if !f.value.Null? && f.key.None? && f.value.Nested? {
      ConfigCallsFlatten(h, f.value.fields, isGlobal);
    }
  }

  /** The calls for one object: fresh object settings, its settings, then the object itself. */
  function ObjectBlock(converter: Handle, settings: Handle, obj: ContentObject): seq<Call> {
    [CreateObjectSettings(settings)] +
    ConfigCalls(settings, obj.settings, false) +
    [AddObject(converter, settings, obj.content)]
  }

  /** The calls for one entry of the object list: none for a null object. */
  function SlotCalls(converter: Handle, slot: Option<ContentObject>, settings: Handle): seq<Call> {
    if slot.None? then [] else ObjectBlock(converter, settings, slot.value)
  }

  /** The handle after a slot: a non-null object has taken one. */
  function NextHandle(slot: Option<ContentObject>, h: Handle): Handle {
    if slot.Some? then h + 1 else h
  }

  /** The calls for the objects of a document, each non-null one on the next free handle from `first` on. */
  function ObjectCalls(converter: Handle, objs: seq<Option<ContentObject>>, first: Handle): seq<Call> {
    if objs == [] then []
    else SlotCalls(converter, objs[0], first) + ObjectCalls(converter, objs[1..], NextHandle(objs[0], first))
  }

  /** The calls that set up the global settings and the converter, when the next free handle is `h`. */
  function GlobalCalls(doc: Document, h: Handle): seq<Call> {
    [CreateGlobalSettings(h)] + ConfigCalls(h, doc.settings, true) + [CreateConverter(h, h + 1)]
  }

  /** The calls of `CreateConverter` when the next free handle is `h`. */
  function CreationCalls(doc: Document, h: Handle): seq<Call> {
    GlobalCalls(doc, h) + ObjectCalls(h + 1, doc.objects, h + 2)
  }

  function CallbackRegistrations(converter: Handle): seq<Call> {
    [SetPhaseChangedCallback(converter), SetProgressChangedCallback(converter), SetFinishedCallback(converter),
     SetWarningCallback(converter), SetErrorCallback(converter)]
  }

  /** The calls of an accepted conversion after its objects: callbacks, conversion, result on success, cleanup. */
  function Epilogue(converter: Handle, converts: bool): seq<Call> {
    CallbackRegistrations(converter) + [DoConversion(converter)] +
    (if converts then [GetConversionResult(converter)] else []) + [DestroyConverter(converter)]
  }

  /** The native calls of one accepted conversion when the next free handle is `h`. */
  function ConversionTrace(doc: Document, h: Handle, converts: bool): seq<Call> {
    [Call.Load] + CreationCalls(doc, h) + Epilogue(h + 1, converts)
  }

  /** The contents handed to AddObject, in order. */
  function Added(calls: seq<Call>): seq<seq<byte>> {
    if calls == [] then []
    else (if calls[0].AddObject? then [calls[0].content] else []) + Added(calls[1..])
  }

  lemma {:induction false} AddedConcat(a: seq<Call>, b: seq<Call>)
    ensures Added(a + b) == Added(a) + Added(b)
  {
    if a == [] {
      assert a + b == b;
    } else {
      assert (a + b)[0] == a[0];
      assert (a + b)[1..] == a[1..] + b;
      AddedConcat(a[1..], b);
    }
  }

  lemma {:induction false} AddedNoObjects(calls: seq<Call>)
    requires forall c :: c in calls ==> !c.AddObject?
    ensures Added(calls) == []
  {
    if calls != [] {
      assert calls[0] in calls;
      assert forall c :: c in calls[1..] ==> c in calls;
      AddedNoObjects(calls[1..]);
    }
  }

  /** The one object a slot adds, if any: its content. */
  lemma SlotAdds(converter: Handle, slot: Option<ContentObject>, h: Handle)
    ensures Added(SlotCalls(converter, slot, h)) == if slot.Some? then [slot.value.content] else []
  {
    if slot.Some? {
      var obj := slot.value;
      var setters := ConfigCalls(h, obj.settings, false);
      ConfigCallsFlatten(h, obj.settings, false);
      SetterCallsTarget(h, Flatten(obj.settings), false);
      AddedNoObjects([CreateObjectSettings(h)] + setters);
      AddedConcat([CreateObjectSettings(h)] + setters, [AddObject(converter, h, obj.content)]);
      assert Added([AddObject(converter, h, obj.content)]) == [obj.content];
    } else {
      assert SlotCalls(converter, slot, h) == [];
    }
  }

  lemma {:induction false} ObjectCallsAddInOrder(converter: Handle, objs: seq<Option<ContentObject>>, first: Handle)
    ensures Added(ObjectCalls(converter, objs, first)) == NonNullContents(objs)
  {
    if objs != [] {
      var next := NextHandle(objs[0], first);
      ObjectCallsAddInOrder(converter, objs[1..], next);
      SlotAdds(converter, objs[0], first);
      AddedConcat(SlotCalls(converter, objs[0], first), ObjectCalls(converter, objs[1..], next));
    }
  }

  /** A document whose objects are all null adds no object and creates no object settings. */
  lemma {:induction false} NullObjectsAddNothing(converter: Handle, objs: seq<Option<ContentObject>>, first: Handle)
    requires forall i :: 0 <= i < |objs| ==> objs[i].None?
    ensures ObjectCalls(converter, objs, first) == []
    ensures NonNullCount(objs) == 0
  {
    if objs != [] {
      assert objs[0].None?;
      NullObjectsAddNothing(converter, objs[1..], first);
    }
  }

  lemma {:induction false} ObjectCallsKinds(converter: Handle, objs: seq<Option<ContentObject>>, first: Handle)
    ensures forall c :: c in ObjectCalls(converter, objs, first) ==>
      c.CreateObjectSettings? || c.SetObjectSetting? || c.AddObject?
  {
    if objs != [] {
      ObjectCallsKinds(converter, objs[1..], NextHandle(objs[0], first));
      if objs[0].Some? {
        ConfigCallsFlatten(first, objs[0].value.settings, false);
        SetterCallsTarget(first, Flatten(objs[0].value.settings), false);
      }
    }
  }

  lemma ConversionTraceParts(doc: Document, h: Handle, converts: bool)
    ensures ConversionTrace(doc, h, converts) ==
      ([Call.Load] + GlobalCalls(doc, h)) + ObjectCalls(h + 1, doc.objects, h + 2) + Epilogue(h + 1, converts)
  {
  }

  /**
    The calls that set up the global settings: the settings handle, one global
    setter per flattened setting of the document on that handle, then the
    converter; none of them adds an object or fetches a result.
  */
  lemma GlobalCallsShape(doc: Document, h: Handle)
    ensures var g := GlobalCalls(doc, h); var n := |Flatten(doc.settings)|;
      && |g| == n + 2
      && g[0] == CreateGlobalSettings(h)
      && (forall i :: 1 <= i <= n ==> g[i].SetGlobalSetting? && g[i].config == h)
      && g[n + 1] == CreateConverter(h, h + 1)
      && (forall c :: c in g ==> !c.AddObject? && !c.GetConversionResult?)
  {
    var setters := SetterCalls(h, Flatten(doc.settings), true);
    ConfigCallsFlatten(h, doc.settings, true);
    SetterCallsTarget(h, Flatten(doc.settings), true);
    var g := GlobalCalls(doc, h);
    forall i | 1 <= i <= |setters|
      ensures g[i].SetGlobalSetting? && g[i].config == h
    {
      assert g[i] == setters[i - 1];
    }
  }

  /**
    The order of one accepted conversion: load, global settings, global setters
    only, then the converter; the objects; the result fetched only on success,
    and the converter destroyed last.
  */
  lemma ConversionTraceOrder(doc: Document, h: Handle, converts: bool)
    ensures var t := ConversionTrace(doc, h, converts);
      var n := |Flatten(doc.settings)|;
      && |t| >= n + 4
      && t[0] == Call.Load
      && t[1] == CreateGlobalSettings(h)
      && (forall i :: 2 <= i < 2 + n ==> t[i].SetGlobalSetting? && t[i].config == h)
      && t[2 + n] == CreateConverter(h, h + 1)
      && t[|t| - 1] == DestroyConverter(h + 1)
      && (GetConversionResult(h + 1) in t <==> converts)
  {
    var t := ConversionTrace(doc, h, converts);
    var global, objects, epi := GlobalCalls(doc, h), ObjectCalls(h + 1, doc.objects, h + 2), Epilogue(h + 1, converts);
    ConversionTraceParts(doc, h, converts);
    GlobalCallsShape(doc, h);
    var n := |Flatten(doc.settings)|;
    forall i | 1 <= i < 3 + n
      ensures t[i] == global[i - 1]
    {
    }
    assert t[|t| - 1] == epi[|epi| - 1];
    ObjectCallsKinds(h + 1, doc.objects, h + 2);
    assert GetConversionResult(h + 1) !in [Call.Load] + global;
    assert GetConversionResult(h + 1) !in objects;
    assert GetConversionResult(h + 1) in epi <==> converts;
  }

  /** The objects added by a conversion are the non-null objects of the document, in order. */
  lemma ConversionAddsObjectsInOrder(doc: Document, h: Handle, converts: bool)
    ensures Added(ConversionTrace(doc, h, converts)) == NonNullContents(doc.objects)
  {
    var pro, objects, epi := [Call.Load] + GlobalCalls(doc, h), ObjectCalls(h + 1, doc.objects, h + 2), Epilogue(h + 1, converts);
    ConversionTraceParts(doc, h, converts);
    GlobalCallsShape(doc, h);
    AddedNoObjects(pro);
    AddedNoObjects(epi);
    ObjectCallsAddInOrder(h + 1, doc.objects, h + 2);
    AddedConcat(pro, objects);
    AddedConcat(pro + objects, epi);
  }

  /** The object calls from entry `i` on: entry `i`'s slot, then the rest on the following handle. */
  lemma ObjectCallsStep(converter: Handle, objs: seq<Option<ContentObject>>, i: nat, h: Handle)
    requires i < |objs|
    ensures ObjectCalls(converter, objs[i..], h) ==
      SlotCalls(converter, objs[i], h) + ObjectCalls(converter, objs[i + 1..], NextHandle(objs[i], h))
    ensures NonNullCount(objs[i..]) == (if objs[i].Some? then 1 else 0) + NonNullCount(objs[i + 1..])
  {
    assert objs[i..][0] == objs[i] && objs[i..][1..] == objs[i + 1..];
  }

  lemma AppendAssoc<T>(a: seq<T>, b: seq<T>, c: seq<T>)
    ensures a + (b + c) == a + b + c
  {
  }

  // ---------------------------------------------------------------------------
  // The converter

  class ThreadSafeConverter {
    const tools: PdfTools
    var processingDocument: Option<Document>

    constructor (tools: PdfTools)
      ensures this.tools == tools && processingDocument == None
    {
      this.tools := tools;
      processingDocument := None;
    }

    /** The delegate `Apply` picks: the global setter or the object setter. */
    method ApplySetting(config: Handle, name: string, value: Option<string>, isGlobal: bool)
      modifies tools
      ensures tools.trace == old(tools.trace) + SetterCalls(config, [Setting(name, value)], isGlobal)
      ensures tools.nextHandle == old(tools.nextHandle)
    {
      if isGlobal {
        tools.SetGlobalSetting(config, name, value);
      } else {
        tools.SetObjectSetting(config, name, value);
      }
    }

    /** Sets one keyed, non-null property on a native settings handle. */
    method Apply(config: Handle, name: string, value: Value, isGlobal: bool)
      requires !value.Null?
      modifies tools
      ensures tools.trace == old(tools.trace) + SetterCalls(config, Emit(name, value), isGlobal)
      ensures tools.nextHandle == old(tools.nextHandle)
    {
      match value {
        case Bool(b) =>
          ApplySetting(config, name, Some(if b then "true" else "false"), isGlobal);
        case Num(formatted) =>
          ApplySetting(config, name, Some(formatted), isGlobal);
        case Map(pairs) =>
          ApplyMap(config, name, pairs, isGlobal);
        case Other(shown) =>
          ApplySetting(config, name, Some(shown), isGlobal);
        case Nested(_, shown) =>
          ApplySetting(config, name, Some(shown), isGlobal);
      }
    }

    /** The dictionary case of `Apply`: an append directive and a numbered entry per complete pair. */
    method ApplyMap(config: Handle, name: string, pairs: seq<Pair>, isGlobal: bool)
      modifies tools
      ensures tools.trace == old(tools.trace) + SetterCalls(config, MapSettings(name, pairs), isGlobal)
      ensures tools.nextHandle == old(tools.nextHandle)
    {
      var index: nat := 0;
      var i := 0;
      while i < |pairs|
        invariant 0 <= i <= |pairs|
        invariant index == |Present(pairs[..i])|
        invariant tools.trace == old(tools.trace) + SetterCalls(config, MapSettings(name, pairs[..i]), isGlobal)
        invariant tools.nextHandle == old(tools.nextHandle)
      {
        var pair := pairs[i];
        MapSettingsSnoc(name, pairs, i);
        if pair.key.None? || pair.value.None? {
          i := i + 1;
          continue;
        }
        ghost var done := MapSettings(name, pairs[..i]);
        ApplyEntry(config, name, index, pair.key.value, pair.value.value, isGlobal);
        SetterCallsConcat(config, done, MapEntry(name, index, pair.key.value, pair.value.value), isGlobal);
        AppendAssoc(old(tools.trace), SetterCalls(config, done, isGlobal),
          SetterCalls(config, MapEntry(name, index, pair.key.value, pair.value.value), isGlobal));
        index := index + 1;
        i := i + 1;
      }
      assert pairs[..i] == pairs;
    }

    /** One complete pair of a dictionary: the append directive, then the numbered entry. */
    method ApplyEntry(config: Handle, name: string, index: nat, key: string, value: string, isGlobal: bool)
      modifies tools
      ensures tools.trace == old(tools.trace) + SetterCalls(config, MapEntry(name, index, key, value), isGlobal)
      ensures tools.nextHandle == old(tools.nextHandle)
    {
      ApplySetting(config, AppendName(name), None, isGlobal);
      ApplySetting(config, IndexedName(name, index), Some(EntryText(key, value)), isGlobal);
    }

    /** Walks a settings object (null emits nothing) into the setters of one handle. */
    method ApplyConfig(config: Handle, settings: Option<seq<Field>>, isGlobal: bool)
      modifies tools
      ensures tools.trace == old(tools.trace) + if settings.Some? then ConfigCalls(config, settings.value, isGlobal) else []
      ensures tools.nextHandle == old(tools.nextHandle)
      decreases if settings.Some? then Size(settings.value) else 0, 1
    {
      if settings.None? {
        assert old(tools.trace) + [] == old(tools.trace);
        return;
      }
      var props := settings.value;
      var i := 0;
      assert props[i..] == props;
      while i < |props|
        invariant 0 <= i <= |props|
        invariant tools.trace + ConfigCalls(config, props[i..], isGlobal) ==
          old(tools.trace) + ConfigCalls(config, props, isGlobal)
        invariant tools.nextHandle == old(tools.nextHandle)
      {
        ghost var before := tools.trace;
        FieldSizeBound(props, i);
        assert props[i..][0] == props[i] && props[i..][1..] == props[i + 1..];
        ApplyProperty(config, props[i], isGlobal);
        AppendAssoc(before, PropertyCalls(config, props[i], isGlobal), ConfigCalls(config, props[i + 1..], isGlobal));
        i := i + 1;
      }
      assert props[i..] == [];
      assert tools.trace + [] == tools.trace;
    }

    /** One step of the walk: skip a null, apply a keyed property, descend into unkeyed settings. */
    method ApplyProperty(config: Handle, prop: Field, isGlobal: bool)
      modifies tools
      ensures tools.trace == old(tools.trace) + PropertyCalls(config, prop, isGlobal)
      ensures tools.nextHandle == old(tools.nextHandle)
      decreases FieldSize(prop), 0
    {
      if prop.value.Null? {
        assert old(tools.trace) + [] == old(tools.trace);
      } else if prop.key.Some? {
        Apply(config, prop.key.value, prop.value, isGlobal);
      } else if prop.value.Nested? {
        ApplyConfig(config, Some(prop.value.fields), isGlobal);
      } else {
        assert old(tools.trace) + [] == old(tools.trace);
      }
    }

    /** The body of the object loop for a non-null object: fresh object settings, its config, the object. */
    method AddDocumentObject(converter: Handle, obj: ContentObject)
      modifies tools
      ensures tools.trace == old(tools.trace) + ObjectBlock(converter, old(tools.nextHandle), obj)
      ensures tools.nextHandle == old(tools.nextHandle) + 1
    {
      var settings := tools.CreateObjectSettings();
      ApplyConfig(settings, Some(obj.settings), false);
      tools.AddObject(converter, settings, obj.content);
    }

    /** Creates the global settings, the converter, and one object per non-null document object. */
    method CreateConverter(document: Document) returns (converter: Handle)
      modifies tools
      ensures converter == old(tools.nextHandle) + 1
      ensures tools.trace == old(tools.trace) + CreationCalls(document, old(tools.nextHandle))
      ensures tools.nextHandle == old(tools.nextHandle) + 2 + NonNullCount(document.objects)
    {
      var settings := tools.CreateGlobalSettings();
      ApplyConfig(settings, Some(document.settings), true);
      converter := tools.CreateConverter(settings);
      assert tools.trace == old(tools.trace) + GlobalCalls(document, settings);
      AppendAssoc(old(tools.trace), GlobalCalls(document, settings), ObjectCalls(converter, document.objects, converter + 1));
      AddDocumentObjects(converter, document.objects);
    }

    /** One entry of the object list: nothing for a null object, otherwise its block on the next free handle. */
    method AddSlot(converter: Handle, slot: Option<ContentObject>)
      modifies tools
      ensures tools.trace == old(tools.trace) + SlotCalls(converter, slot, old(tools.nextHandle))
      ensures tools.nextHandle == NextHandle(slot, old(tools.nextHandle))
    {
      if slot.Some? {
        AddDocumentObject(converter, slot.value);
      } else {
        assert old(tools.trace) + [] == old(tools.trace);
      }
    }

    /** The object loop: the non-null objects, in order, each on the next free settings handle. */
    method AddDocumentObjects(converter: Handle, objs: seq<Option<ContentObject>>)
      modifies tools
      ensures tools.trace == old(tools.trace) + ObjectCalls(converter, objs, old(tools.nextHandle))
      ensures tools.nextHandle == old(tools.nextHandle) + NonNullCount(objs)
    {
      var i := 0;
      while i < |objs|
        invariant 0 <= i <= |objs|
        invariant tools.trace + ObjectCalls(converter, objs[i..], tools.nextHandle) ==
          old(tools.trace) + ObjectCalls(converter, objs, old(tools.nextHandle))
        invariant tools.nextHandle + NonNullCount(objs[i..]) == old(tools.nextHandle) + NonNullCount(objs)
      {
        ghost var before, h := tools.trace, tools.nextHandle;
        ObjectCallsStep(converter, objs, i, h);
        AddSlot(converter, objs[i]);
        AppendAssoc(before, SlotCalls(converter, objs[i], h), ObjectCalls(converter, objs[i + 1..], NextHandle(objs[i], h)));
        i := i + 1;
      }
      assert objs[i..] == [];
      assert tools.trace + [] == tools.trace;
    }

    /** After the objects: register the callbacks, convert, fetch the result on success, destroy the converter. */
    method RunConversion(converter: Handle) returns (result: seq<byte>)
      modifies tools
      ensures result == if tools.converts then tools.output else []
      ensures tools.trace == old(tools.trace) + Epilogue(converter, tools.converts)
      ensures tools.nextHandle == old(tools.nextHandle)
    {
      result := [];
      tools.SetPhaseChangedCallback(converter);
      tools.SetProgressChangedCallback(converter);
      tools.SetFinishedCallback(converter);
      tools.SetWarningCallback(converter);
      tools.SetErrorCallback(converter);
      assert tools.trace == old(tools.trace) + CallbackRegistrations(converter);
      var converted := tools.DoConversion(converter);
      ghost var converting := tools.trace;
      if converted {
        result := tools.GetConversionResult(converter);
      }
      assert tools.trace == converting + if converted then [GetConversionResult(converter)] else [];
      tools.DestroyConverter(converter);
    }

    /**
      One conversion job: a document without objects is refused before any
      native call; otherwise the fixed call sequence runs, the result is empty
      unless the native conversion succeeds, and the converter is destroyed.
    */
    method ConvertDocument(document: Document) returns (r: Result<seq<byte>, ConvertError>)
      modifies this, tools
      ensures |document.objects| == 0 ==>
        && r == Failure(NoObjects)
        && tools.trace == old(tools.trace)
        && processingDocument == old(processingDocument)
      ensures |document.objects| > 0 ==>
        && r == Success(if tools.converts then tools.output else [])
        && processingDocument == Some(document)
        && tools.trace == old(tools.trace) + ConversionTrace(document, old(tools.nextHandle), tools.converts)
    {
      if |document.objects| == 0 {
        return Failure(NoObjects);
      }
      processingDocument := Some(document);
      tools.Load();
      var converter := CreateConverter(document);
      ghost var created := tools.trace;
      AppendAssoc(old(tools.trace), [Call.Load], CreationCalls(document, old(tools.nextHandle)));
      assert created == old(tools.trace) + ([Call.Load] + CreationCalls(document, old(tools.nextHandle)));
      AppendAssoc(old(tools.trace), [Call.Load] + CreationCalls(document, old(tools.nextHandle)), Epilogue(converter, tools.converts));
      var result := RunConversion(converter);
      r := Success(result);
    }

    /** Arguments of the phase-changed event; the description is the one of the phase reported. */
    function OnPhaseChanged(phaseCount: int, currentPhase: int, describe: int -> string): (a: PhaseChangedArgs)
      reads this
      ensures a.document == processingDocument
      ensures a.currentPhase == currentPhase && a.phaseCount == phaseCount
      ensures a.description == describe(a.currentPhase)
    {
      PhaseChangedArgs(processingDocument, phaseCount, currentPhase, describe(currentPhase))
    }

    function OnProgressChanged(progress: string): (a: ProgressChangedArgs)
      reads this
      ensures a.document == processingDocument && a.description == progress
    {
      ProgressChangedArgs(processingDocument, progress)
    }

    /** Arguments of the finished event: success exactly when the native flag is 1. */
    function OnFinished(success: int): (a: FinishedArgs)
      reads this
      ensures a.document == processingDocument
      ensures a.success <==> success == 1
    {
      FinishedArgs(processingDocument, success == 1)
    }

    function OnError(message: string): (a: ErrorArgs)
      reads this
      ensures a.document == processingDocument && a.message == message
    {
      ErrorArgs(processingDocument, message)
    }

    function OnWarning(message: string): (a: WarningArgs)
      reads this
      ensures a.document == processingDocument && a.message == message
    {
      WarningArgs(processingDocument, message)
    }
  }
}
