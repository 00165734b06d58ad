/**
  The native wkhtmltopdf binding (`PdfTools`) as a recorder of abstract calls.

  Every call the converter makes is appended to `trace`. Handles are handed out
  from a counter, so that the handle a call returns is the one later calls name.
  What the native library decides on its own, whether a conversion succeeds and
  the bytes it produces, is fixed when the recorder is created.
*/
module Backend {
  import opened Wrappers
  import opened Marshal

  newtype byte = x: int | 0 <= x < 256

  /** A native handle (IntPtr); zero is never handed out. */
  type Handle = nat

  datatype Call =
    | Load
    | CreateGlobalSettings(settings: Handle)
    | CreateObjectSettings(settings: Handle)
    | SetGlobalSetting(config: Handle, name: string, value: Option<string>)
    | SetObjectSetting(config: Handle, name: string, value: Option<string>)
    | CreateConverter(settings: Handle, converter: Handle)
    | AddObject(converter: Handle, settings: Handle, content: seq<byte>)
    | SetPhaseChangedCallback(converter: Handle)
    | SetProgressChangedCallback(converter: Handle)
    | SetFinishedCallback(converter: Handle)
    | SetWarningCallback(converter: Handle)
    | SetErrorCallback(converter: Handle)
    | DoConversion(converter: Handle)
    | GetConversionResult(converter: Handle)
    | DestroyConverter(converter: Handle)

  /** The call one setting becomes: the global setter or the object setter. */
  function SetterCall(config: Handle, s: Setting, isGlobal: bool): Call {
    if isGlobal then SetGlobalSetting(config, s.name, s.value) else SetObjectSetting(config, s.name, s.value)
  }

  /** The calls a list of settings becomes; all of them go to one setter and one handle. */
  function SetterCalls(config: Handle, settings: seq<Setting>, isGlobal: bool): seq<Call>
  {
    seq(|settings|, i requires 0 <= i < |settings| => SetterCall(config, settings[i], isGlobal))
  }

  /** Every setting becomes one call, in order, to the one setter `isGlobal` selects, on `config`. */
  lemma SetterCallsTarget(config: Handle, settings: seq<Setting>, isGlobal: bool)
    ensures var r := SetterCalls(config, settings, isGlobal);
      && |r| == |settings|
      && (forall c :: c in r ==> if isGlobal then c.SetGlobalSetting? else c.SetObjectSetting?)
      && (forall i :: 0 <= i < |r| ==>
            r[i].config == config && r[i].name == settings[i].name && r[i].value == settings[i].value)
  {
  }

  lemma SetterCallsConcat(config: Handle, a: seq<Setting>, b: seq<Setting>, isGlobal: bool)
    ensures SetterCalls(config, a + b, isGlobal) == SetterCalls(config, a, isGlobal) + SetterCalls(config, b, isGlobal)
  {
    var l, r := SetterCalls(config, a + b, isGlobal), SetterCalls(config, a, isGlobal) + SetterCalls(config, b, isGlobal);
    assert |l| == |r|;
    forall i | 0 <= i < |l| ensures l[i] == r[i] {
      if i < |a| {
        assert (a + b)[i] == a[i];
      } else {
        assert (a + b)[i] == b[i - |a|];
      }
    }
  }

  class PdfTools {
    var trace: seq<Call>
    var nextHandle: Handle
    /** what the native DoConversion reports */
    const converts: bool
    /** what the native GetConversionResult returns */
    const output: seq<byte>

    constructor (converts: bool, output: seq<byte>)
      ensures trace == [] && nextHandle == 1
      ensures this.converts == converts && this.output == output
    {
      trace := [];
      nextHandle := 1;
      this.converts := converts;
      this.output := output;
    }

    method Load()
      modifies this
      ensures trace == old(trace) + [Call.Load] && nextHandle == old(nextHandle)
    {
      trace := trace + [Call.Load];
    }

    method CreateGlobalSettings() returns (h: Handle)
      modifies this
      ensures h == old(nextHandle) && nextHandle == h + 1
      ensures trace == old(trace) + [Call.CreateGlobalSettings(h)]
    {
      h := nextHandle;
      nextHandle := nextHandle + 1;
      trace := trace + [Call.CreateGlobalSettings(h)];
    }

    method CreateObjectSettings() returns (h: Handle)
      modifies this
      ensures h == old(nextHandle) && nextHandle == h + 1
      ensures trace == old(trace) + [Call.CreateObjectSettings(h)]
    {
      h := nextHandle;
      nextHandle := nextHandle + 1;
      trace := trace + [Call.CreateObjectSettings(h)];
    }

    method SetGlobalSetting(config: Handle, name: string, value: Option<string>)
      modifies this
      ensures trace == old(trace) + [Call.SetGlobalSetting(config, name, value)] && nextHandle == old(nextHandle)
    {
      trace := trace + [Call.SetGlobalSetting(config, name, value)];
    }

    method SetObjectSetting(config: Handle, name: string, value: Option<string>)
      modifies this
      ensures trace == old(trace) + [Call.SetObjectSetting(config, name, value)] && nextHandle == old(nextHandle)
    {
      trace := trace + [Call.SetObjectSetting(config, name, value)];
    }

    method CreateConverter(settings: Handle) returns (h: Handle)
      modifies this
      ensures h == old(nextHandle) && nextHandle == h + 1
      ensures trace == old(trace) + [Call.CreateConverter(settings, h)]
    {
      h := nextHandle;
      nextHandle := nextHandle + 1;
      trace := trace + [Call.CreateConverter(settings, h)];
    }

    method AddObject(converter: Handle, settings: Handle, content: seq<byte>)
      modifies this
      ensures trace == old(trace) + [Call.AddObject(converter, settings, content)] && nextHandle == old(nextHandle)
    {
      trace := trace + [Call.AddObject(converter, settings, content)];
    }

    method SetPhaseChangedCallback(converter: Handle)
      modifies this
      ensures trace == old(trace) + [Call.SetPhaseChangedCallback(converter)] && nextHandle == old(nextHandle)
    {
      trace := trace + [Call.SetPhaseChangedCallback(converter)];
    }

    method SetProgressChangedCallback(converter: Handle)
      modifies this
      ensures trace == old(trace) + [Call.SetProgressChangedCallback(converter)] && nextHandle == old(nextHandle)
    {
      trace := trace + [Call.SetProgressChangedCallback(converter)];
    }

    method SetFinishedCallback(converter: Handle)
      modifies this
      ensures trace == old(trace) + [Call.SetFinishedCallback(converter)] && nextHandle == old(nextHandle)
    {
      trace := trace + [Call.SetFinishedCallback(converter)];
    }

    method SetWarningCallback(converter: Handle)
      modifies this
      ensures trace == old(trace) + [Call.SetWarningCallback(converter)] && nextHandle == old(nextHandle)
    {
      trace := trace + [Call.SetWarningCallback(converter)];
    }

    method SetErrorCallback(converter: Handle)
      modifies this
      ensures trace == old(trace) + [Call.SetErrorCallback(converter)] && nextHandle == old(nextHandle)
    {
      trace := trace + [Call.SetErrorCallback(converter)];
    }

    method DoConversion(converter: Handle) returns (ok: bool)
      modifies this
      ensures ok == converts
      ensures trace == old(trace) + [Call.DoConversion(converter)] && nextHandle == old(nextHandle)
    {
      ok := converts;
      trace := trace + [Call.DoConversion(converter)];
    }

    method GetConversionResult(converter: Handle) returns (bytes: seq<byte>)
      modifies this
      ensures bytes == output
      ensures trace == old(trace) + [Call.GetConversionResult(converter)] && nextHandle == old(nextHandle)
    {
      bytes := output;
      trace := trace + [Call.GetConversionResult(converter)];
    }

    method DestroyConverter(converter: Handle)
      modifies this
      ensures trace == old(trace) + [Call.DestroyConverter(converter)] && nextHandle == old(nextHandle)
    {
      trace := trace + [Call.DestroyConverter(converter)];
    }
  }
}
