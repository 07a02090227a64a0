/** The block editor script: it watches the editor's saving flags, and when a
    save completes it collects one payload per cloner panel. */
module SaveTrigger {
  import opened Common

  /** The three flags read from the 'core/editor' store on each notification. */
  datatype EditorState = EditorState(saving: bool, autosaving: bool, previewing: bool)

  /** A save just finished and was not a plain autosave, or an autosave
      made for a preview just finished previewing. */
  function ShouldTrigger(was: EditorState, now: EditorState): (r: bool)
    // it fires only as a save or a preview ends
    ensures r ==> (was.saving && !now.saving) || (was.previewing && !now.previewing)
    // and always when a save that is not an autosave ends, or an autosave
    // made for a preview stops previewing
    ensures was.saving && !was.autosaving && !now.saving ==> r
    ensures was.autosaving && was.previewing && !now.previewing ==> r
  {
    || (was.saving && !now.saving && !was.autosaving)
    || (was.autosaving && was.previewing && !now.previewing)
  }

  /** Nothing fires unless the editor was saving or previewing before. */
  lemma IdleNeverTriggers(was: EditorState, now: EditorState)
    requires !was.saving && !was.previewing
    ensures !ShouldTrigger(was, now)
  {
  }

  /** A state that does not change fires nothing: each save triggers once. */
  lemma SteadyStateNeverTriggers(s: EditorState)
    ensures !ShouldTrigger(s, s)
  {
  }

  /** A manual save triggers when it completes. */
  lemma ManualSaveTriggers(was: EditorState, now: EditorState)
    requires was.saving && !was.autosaving && !now.saving
    ensures ShouldTrigger(was, now)
  {
  }

  /** An autosave that is not for a preview never triggers. */
  lemma BackgroundAutosaveSilent(was: EditorState, now: EditorState)
    requires was.autosaving && !was.previewing
    ensures !ShouldTrigger(was, now)
  {
  }

  /** The trigger decisions for a run of notifications starting from `start`. */
  function Triggers(start: EditorState, obs: seq<EditorState>): (r: seq<bool>)
    ensures |r| == |obs|
    ensures forall i :: 0 < i < |obs| ==> r[i] == ShouldTrigger(obs[i - 1], obs[i])
    ensures |obs| > 0 ==> r[0] == ShouldTrigger(start, obs[0])
    decreases |obs|
  {
    if obs == [] then []
    else [ShouldTrigger(start, obs[0])] + Triggers(obs[0], obs[1..])
  }

  /** Once a manual save ends, later notifications that stay idle fire nothing more. */
  lemma {:induction false} SaveCompletesOnce(start: EditorState, n: nat)
    requires start.saving && !start.autosaving
    ensures var idle := EditorState(false, false, false);
      Triggers(start, seq(n + 1, _ => idle)) == [true] + seq(n, _ => false)
  {
    var idle := EditorState(false, false, false);
    var obs := seq(n + 1, _ => idle);
    var r := Triggers(start, obs);
    assert r[0];
    assert forall i :: 0 < i < n + 1 ==> !r[i] by {
      forall i | 0 < i < n + 1 ensures !r[i] {
        assert obs[i - 1] == idle && obs[i] == idle;
        SteadyStateNeverTriggers(idle);
      }
    }
  }

  // ---------------------------------------------------------------------------
  // initClonerSave

  /** The `cloner_target_post[<blog>]` input of a panel: absent, a single
      (hidden) input, or a radio group with its checked value, if any. */
  datatype TargetField = NoField | Input(value: string) | Radios(checked: Option<string>)

  /** What the script reads from one `.cty-meta-box` element. */
  datatype Panel = Panel(
    sourceBlog: string, sourcePost: string, targetBlog: string,
    targetField: TargetField,
    checkedAction: Option<string>)  // the checked `cloner_action[<blog>]` radio

  /** The JSON object sent for one panel; a target post of `None` is `false`. */
  datatype Payload = Payload(
    action: string, sourceBlog: string, sourcePost: string, targetBlog: string,
    targetPost: Option<string>)

  function TargetPostOf(f: TargetField): (r: Option<string>)
    ensures f.NoField? ==> r.None?
    ensures f.Input? ==> r == Some(f.value)
    ensures f.Radios? ==> r == f.checked
  {
    match f
    case NoField => None
    case Input(v) => Some(v)
    case Radios(c) => c
  }

  /** The payload of one panel. */
  function PayloadOf(p: Panel): (r: Payload)
    ensures r.sourceBlog == p.sourceBlog && r.sourcePost == p.sourcePost && r.targetBlog == p.targetBlog
    ensures r.action == p.checkedAction.GetOr("ignore")
    ensures r.targetPost == TargetPostOf(p.targetField)
  {
    Payload(p.checkedAction.GetOr("ignore"), p.sourceBlog, p.sourcePost, p.targetBlog, TargetPostOf(p.targetField))
  }

  /** `initClonerSave`'s collection loop: one payload per panel, in document order. */
  method CollectPayloads(panels: seq<Panel>) returns (data: seq<Payload>)
    ensures |data| == |panels|
    ensures forall i :: 0 <= i < |panels| ==> data[i] == PayloadOf(panels[i])
  {
    data := [];
    var i := 0;
    while i < |panels|
      invariant 0 <= i <= |panels|
      invariant |data| == i
      invariant forall k :: 0 <= k < i ==> data[k] == PayloadOf(panels[k])
    {
      var p := panels[i];
      var target: Option<string>;
      match p.targetField {
        case NoField => target := None;
        case Input(v) => target := Some(v);
        case Radios(c) => target := c;
      }
      var action := if p.checkedAction.Some? then p.checkedAction.value else "ignore";
      data := data + [Payload(action, p.sourceBlog, p.sourcePost, p.targetBlog, target)];
      i := i + 1;
    }
  }

  /** The watcher kept by the editor script between store notifications. */
  class SaveWatcher {
    var wasSaving: bool
    var wasAutosaving: bool
    var wasPreviewing: bool

    function Remembered(): EditorState
      reads this
    {
      EditorState(wasSaving, wasAutosaving, wasPreviewing)
    }

    /** The flags read once when the script loads. */
    constructor (initial: EditorState)
      ensures Remembered() == initial
    {
      wasSaving := initial.saving;
      wasAutosaving := initial.autosaving;
      wasPreviewing := initial.previewing;
    }

    /** One store notification: decide, then remember the observation. */
    method Notify(now: EditorState) returns (trigger: bool)
      modifies this
      ensures trigger == ShouldTrigger(old(Remembered()), now)
      ensures Remembered() == now
    {
      trigger := (wasSaving && !now.saving && !wasAutosaving) || (wasAutosaving && wasPreviewing && !now.previewing);
      wasSaving := now.saving;
      wasAutosaving := now.autosaving;
      wasPreviewing := now.previewing;
    }

    /** The subscribe callback: the payloads sent, when a save triggered. */
    method OnChange(now: EditorState, panels: seq<Panel>) returns (sent: Option<seq<Payload>>)
      modifies this
      ensures sent.Some? <==> ShouldTrigger(old(Remembered()), now)
      ensures sent.Some? ==>
        && |sent.value| == |panels|
        && forall i :: 0 <= i < |panels| ==> sent.value[i] == PayloadOf(panels[i])
      ensures Remembered() == now
    {
      var trigger := Notify(now);
      if trigger {
        var data := CollectPayloads(panels);
        sent := Some(data);
      } else {
        sent := None;
      }
    }
  }
}
