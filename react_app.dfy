/** The state of the React app's `App` component (NatureShieldReact/App.js):
    the selected category, its label table, the picked image, the result text
    and the TFLite interpreter, updated by the category buttons, the two
    `[category]` effects and the `Classify` handler. The effects' asynchronous
    completions are taken to finish before the next user action. */
module ReactApp {
  import opened LabelRows
  import opened ReactLabels
  import opened ReactInference

  /** The edge of the square input images the models expect. */
  const InputSize: nat := 224

  /** The result text shown right after a category is selected (an em dash). */
  const ResetText := "\U{2014}"

  datatype Category = Plants | Birds | Insects | Mammals

  datatype ModelConfig = ModelConfig(model: string, labels: string)

  /** `MODEL_CONFIG`: the float32 model and the label file of each category. */
  function Config(c: Category): ModelConfig
  {
    match c
    case Plants => ModelConfig("models/plants/model_float32.tflite", "models/plants/labels.csv")
    case Birds => ModelConfig("models/birds/model_float32.tflite", "models/birds/labels.csv")
    case Insects => ModelConfig("models/insects/model_float32.tflite", "models/insects/labels.csv")
    case Mammals => ModelConfig("models/mammals/model_float32.tflite", "models/mammals/labels.csv")
  }

  /** The options of `tflite.loadModel`. */
  datatype LoadParams = LoadParams(model: string, labels: string, isQuantized: bool, numThreads: nat)

  /** The options of `tflite.runModelOnImage`. */
  datatype RunParams = RunParams(path: string, imageMean: real, imageStd: real, numResults: nat,
                                 threshold: real, width: nat, height: nat)

  /** A call made on the TFLite engine, in the order made. */
  datatype EngineCall = Load(load: LoadParams) | Run(run: RunParams) | Close

  /** Whether an interpreter is loaded, and for which category. */
  datatype ModelState = Unloaded | Loaded(cat: Category)

  /** What the image picker hands to its callback. */
  datatype PickResponse = PickCancelled | PickFailed(errorCode: string) | Picked(uri: string)

  /** The options the model effect passes to `loadModel` for a category. */
  function LoadParamsFor(c: Category): LoadParams
  {
    LoadParams(Config(c).model, Config(c).labels, false, 1)
  }

  /** The inference options for an image: mean 0, scale 1/255, top result
      only, threshold 0.01, 224 by 224. */
  function RunParamsFor(path: string): RunParams
  {
    RunParams(path, 0.0, 255.0, 1, 0.01, InputSize, InputSize)
  }

  /** Load options as the model effect builds them: both paths from one
      category's `MODEL_CONFIG` entry, float weights, a single thread. */
  ghost predicate Configured(p: LoadParams)
  {
    && !p.isQuantized
    && p.numThreads == 1
    && exists c :: p.model == Config(c).model && p.labels == Config(c).labels
  }

  /** Every load in a trace uses configured options. */
  ghost predicate LoadsConfigured(calls: seq<EngineCall>)
  {
    forall k :: 0 <= k < |calls| && calls[k].Load? ==> Configured(calls[k].load)
  }

  /** Every two loads in a trace have a close between them: an interpreter
      is never loaded over one that is still open. */
  ghost predicate CloseSeparatesLoads(calls: seq<EngineCall>)
  {
    forall i, j :: 0 <= i < j < |calls| && calls[i].Load? && calls[j].Load? ==>
      exists k :: i < k < j && calls[k].Close?
  }

  /** The options of the most recent load in a trace. */
  function LastLoad(calls: seq<EngineCall>): Option<LoadParams>
    decreases |calls|
  {
    if |calls| == 0 then None
    else if calls[|calls| - 1].Load? then Some(calls[|calls| - 1].load)
    else LastLoad(calls[..|calls| - 1])
  }

  /** Running inference neither loads nor closes an interpreter. */
  lemma RunKeepsDiscipline(calls: seq<EngineCall>, p: RunParams)
    requires CloseSeparatesLoads(calls) && LoadsConfigured(calls)
    ensures CloseSeparatesLoads(calls + [Run(p)]) && LoadsConfigured(calls + [Run(p)])
    ensures LastLoad(calls + [Run(p)]) == LastLoad(calls)
  {
    var t := calls + [Run(p)];
    assert t[..|calls|] == calls;
    forall i, j | 0 <= i < j < |t| && t[i].Load? && t[j].Load?
      ensures exists k :: i < k < j && t[k].Close?
    {
      assert j < |calls| && calls[i] == t[i] && calls[j] == t[j];
      var k :| i < k < j && calls[k].Close?;
      assert t[k] == calls[k];
    }
    forall k | 0 <= k < |t| && t[k].Load?
      ensures Configured(t[k].load)
    {
      assert k < |calls| && t[k] == calls[k];
    }
  }

  /** Closing the interpreter loads nothing. */
  lemma CloseKeepsDiscipline(calls: seq<EngineCall>)
    requires CloseSeparatesLoads(calls) && LoadsConfigured(calls)
    ensures CloseSeparatesLoads(calls + [Close]) && LoadsConfigured(calls + [Close])
  {
    var t := calls + [Close];
    forall i, j | 0 <= i < j < |t| && t[i].Load? && t[j].Load?
      ensures exists k :: i < k < j && t[k].Close?
    {
      assert j < |calls| && calls[i] == t[i] && calls[j] == t[j];
      var k :| i < k < j && calls[k].Close?;
      assert t[k] == calls[k];
    }
    forall k | 0 <= k < |t| && t[k].Load?
      ensures Configured(t[k].load)
    {
      assert k < |calls| && t[k] == calls[k];
    }
  }

  /** A category switch closes the old interpreter and then loads the new
      category's model with configured options; that load becomes the most
      recent one. */
  lemma SwitchKeepsDiscipline(calls: seq<EngineCall>, c: Category)
    requires CloseSeparatesLoads(calls) && LoadsConfigured(calls)
    ensures CloseSeparatesLoads(calls + [Close, Load(LoadParamsFor(c))])
    ensures LoadsConfigured(calls + [Close, Load(LoadParamsFor(c))])
    ensures LastLoad(calls + [Close, Load(LoadParamsFor(c))]) == Some(LoadParamsFor(c))
  {
    var t := calls + [Close, Load(LoadParamsFor(c))];
    var n := |calls|;
    forall i, j | 0 <= i < j < |t| && t[i].Load? && t[j].Load?
      ensures exists k :: i < k < j && t[k].Close?
    {
      if j == n + 1 {
        assert i < n && t[n].Close?;
      } else {
        assert j < n && calls[i] == t[i] && calls[j] == t[j];
        var k :| i < k < j && calls[k].Close?;
        assert t[k] == calls[k];
      }
    }
    forall k | 0 <= k < |t| && t[k].Load?
      ensures Configured(t[k].load)
    {
      if k == n + 1 {
        assert t[k].load.model == Config(c).model && t[k].load.labels == Config(c).labels;
      } else {
        assert k < n && t[k] == calls[k];
      }
    }
  }

  /** The first load, made with no interpreter open, uses configured
      options and is the most recent load. */
  lemma FirstLoadDiscipline(c: Category)
    ensures CloseSeparatesLoads([Load(LoadParamsFor(c))])
    ensures LoadsConfigured([Load(LoadParamsFor(c))])
    ensures LastLoad([Load(LoadParamsFor(c))]) == Some(LoadParamsFor(c))
  {
    assert LoadParamsFor(c).model == Config(c).model && LoadParamsFor(c).labels == Config(c).labels;
  }

  /** A trace that ends with a close has closed every interpreter it loaded. */
  lemma AllLoadsClosed(calls: seq<EngineCall>)
    requires CloseSeparatesLoads(calls)
    requires |calls| > 0 && calls[|calls| - 1].Close?
    ensures forall i :: 0 <= i < |calls| && calls[i].Load? ==> exists k :: i < k < |calls| && calls[k].Close?
  {
    forall i | 0 <= i < |calls| && calls[i].Load?
      ensures exists k :: i < k < |calls| && calls[k].Close?
    {
      assert i < |calls| - 1 && calls[|calls| - 1].Close?;
    }
  }

  /** Each category has its own model file and its own label file. */
  lemma ConfigsDistinct(c: Category, d: Category)
    requires c != d
    ensures Config(c).model != Config(d).model && Config(c).labels != Config(d).labels
  {
  }

  /** Switching from one category's model to another's loads other files
      than the ones the previous load used. */
  lemma SwitchLoadsOtherFiles(calls: seq<EngineCall>, previous: Category, c: Category)
    requires LastLoad(calls) == Some(LoadParamsFor(previous)) && c != previous
    ensures var after := LastLoad(calls + [Close, Load(LoadParamsFor(c))]);
            && after.Some?
            && after.value.model != LastLoad(calls).value.model
            && after.value.labels != LastLoad(calls).value.labels
  {
    ConfigsDistinct(c, previous);
    var t := calls + [Close, Load(LoadParamsFor(c))];
    assert t[|t| - 1] == Load(LoadParamsFor(c));
  }

  class App {
    var category: Category
    var labels: map<int, string>
    var uri: Option<string>
    var result: string
    var model: ModelState
    /** The calls made on the TFLite engine so far. */
    var engineCalls: seq<EngineCall>
    /** Whether the first render's effects have run. */
    var mounted: bool
    /** Whether the component has been unmounted. */
    var unmounted: bool

    /** Loads are separated by closes and all use configured options; the
        loaded interpreter, if any, is the selected category's; while
        mounted, the last load was for the selected category; after
        unmounting, the interpreter is closed. */
    ghost predicate Valid()
      reads this
    {
      && CloseSeparatesLoads(engineCalls)
      && LoadsConfigured(engineCalls)
      && (model.Loaded? ==> model.cat == category)
      && (!mounted ==> engineCalls == [] && model == Unloaded && !unmounted)
      && (mounted && !unmounted ==> LastLoad(engineCalls) == Some(LoadParamsFor(category)))
      && (unmounted ==> model == Unloaded && |engineCalls| > 0 && engineCalls[|engineCalls| - 1].Close?)
    }

    /** The initial `useState` values; no interpreter is loaded yet. */
    constructor ()
      ensures Valid() && !mounted && !unmounted
      ensures category == Plants && labels == map[] && uri == None && result == ""
      ensures model == Unloaded && engineCalls == []
    {
      category := Plants;
      labels := map[];
      uri := None;
      result := "";
      model := Unloaded;
      engineCalls := [];
      mounted := false;
      unmounted := false;
    }

    /** The effects of the first render: the label table of the selected
        category is read (`read` yields None when reading or parsing its
        label file fails) and its model is loaded (`loadOk` is the engine's
        answer). */
    method Mount(parse: string -> Option<int>, read: string -> Option<seq<seq<string>>>, loadOk: bool)
      requires Valid() && !mounted
      modifies this
      ensures Valid() && mounted && !unmounted
      ensures category == old(category) && uri == old(uri) && result == old(result)
      ensures read(Config(category).labels).None? ==> labels == map[]
      ensures read(Config(category).labels).Some? ==> labels == LabelTable(parse, read(Config(category).labels).value)
      ensures engineCalls == [Load(LoadParamsFor(category))]
      ensures model == if loadOk then Loaded(category) else Unloaded
    {
      labels := LoadCsv(parse, read(Config(category).labels));
      FirstLoadDiscipline(category);
      engineCalls := [Load(LoadParamsFor(category))];
      model := if loadOk then Loaded(category) else Unloaded;
      mounted := true;
    }

    /** A category button: the result is reset to the dash and the preview
        cleared. When the category actually changes, the `[category]`
        effects run again: the model effect's cleanup closes the old
        interpreter, then the new category's labels are read and its model
        is loaded, from files other than the ones it replaces. Pressing the
        selected category runs no effect. */
    method SelectCategory(cat: Category, parse: string -> Option<int>,
                          read: string -> Option<seq<seq<string>>>, loadOk: bool)
      requires Valid() && mounted && !unmounted
      modifies this
      ensures Valid() && mounted && !unmounted
      ensures category == cat && result == ResetText && uri == None
      ensures cat == old(category) ==>
                labels == old(labels) && model == old(model) && engineCalls == old(engineCalls)
      ensures cat != old(category) ==>
                engineCalls == old(engineCalls) + [Close, Load(LoadParamsFor(cat))]
                && model == (if loadOk then Loaded(cat) else Unloaded)
      ensures cat != old(category) ==>
                LastLoad(old(engineCalls)).Some? && LastLoad(engineCalls).Some?
                && LastLoad(engineCalls).value.model != LastLoad(old(engineCalls)).value.model
                && LastLoad(engineCalls).value.labels != LastLoad(old(engineCalls)).value.labels
      ensures cat != old(category) && read(Config(cat).labels).None? ==> labels == map[]
      ensures cat != old(category) && read(Config(cat).labels).Some? ==>
                labels == LabelTable(parse, read(Config(cat).labels).value)
    {
      var previous := category;
      var changed := cat != category;
      category := cat;
      result := ResetText;
      uri := None;
      if changed {
        SwitchLoadsOtherFiles(engineCalls, previous, cat);
        RerunEffects(parse, read, loadOk);
      }
    }

    /** What React does after a render in which `category` changed: the
        model effect's cleanup (`tflite.close()`) runs, then the label effect
        reads the new category's table and the model effect loads its model. */
    method RerunEffects(parse: string -> Option<int>, read: string -> Option<seq<seq<string>>>, loadOk: bool)
      requires CloseSeparatesLoads(engineCalls) && LoadsConfigured(engineCalls)
      modifies this`engineCalls, this`model, this`labels
      ensures CloseSeparatesLoads(engineCalls) && LoadsConfigured(engineCalls)
      ensures LastLoad(engineCalls) == Some(LoadParamsFor(category))
      ensures engineCalls == old(engineCalls) + [Close, Load(LoadParamsFor(category))]
      ensures model == if loadOk then Loaded(category) else Unloaded
      ensures read(Config(category).labels).None? ==> labels == map[]
      ensures read(Config(category).labels).Some? ==> labels == LabelTable(parse, read(Config(category).labels).value)
    {
      SwitchKeepsDiscipline(engineCalls, category);
      engineCalls := engineCalls + [Close];
      model := Unloaded;
      labels := LoadCsv(parse, read(Config(category).labels));
      engineCalls := engineCalls + [Load(LoadParamsFor(category))];
      model := if loadOk then Loaded(category) else Unloaded;
      assert engineCalls == old(engineCalls) + [Close, Load(LoadParamsFor(category))];
    }

    /** "Upload Image": a cancelled or failed pick changes nothing and runs
        no inference; otherwise the image is shown, inference runs on it and
        the engine's reply is resolved against the current label table. */
    method Classify(pick: PickResponse, reply: EngineReply)
      requires Valid() && mounted && !unmounted
      modifies this
      ensures Valid()
      ensures category == old(category) && labels == old(labels) && model == old(model)
      ensures mounted == old(mounted) && unmounted == old(unmounted)
      ensures !pick.Picked? ==> uri == old(uri) && result == old(result) && engineCalls == old(engineCalls)
      ensures pick.Picked? ==>
                uri == Some(pick.uri)
                && engineCalls == old(engineCalls) + [Run(RunParamsFor(pick.uri))]
                && result == Resolve(labels, reply)
    {
      if pick.Picked? {
        uri := Some(pick.uri);
        RunKeepsDiscipline(engineCalls, RunParamsFor(pick.uri));
        engineCalls := engineCalls + [Run(RunParamsFor(pick.uri))];
        result := Resolve(labels, reply);
      }
    }

    /** Unmounting runs the model effect's cleanup one last time: the
        interpreter is closed, after which every interpreter ever loaded
        has been closed. The label effect has no cleanup. */
    method Unmount()
      requires Valid() && mounted && !unmounted
      modifies this
      ensures Valid() && mounted && unmounted
      ensures engineCalls == old(engineCalls) + [Close] && model == Unloaded
      ensures category == old(category) && labels == old(labels) && uri == old(uri) && result == old(result)
      ensures forall i :: 0 <= i < |engineCalls| && engineCalls[i].Load? ==>
                exists k :: i < k < |engineCalls| && engineCalls[k].Close?
    {
      CloseKeepsDiscipline(engineCalls);
      engineCalls := engineCalls + [Close];
      model := Unloaded;
      unmounted := true;
      AllLoadsClosed(engineCalls);
    }
  }
}
