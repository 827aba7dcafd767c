/** The retarget preset catalog and which preset fits which skeleton and rig model. */
module AnimationPresets {
  import opened Wrappers

  const RIG_MODEL_BIPED := "v1.0-20240301"
  const RIG_MODEL_GENERIC := "v2.5-20260210"

  /** `rigModel` is the only rig model that takes the preset; None means either. */
  datatype Preset = Preset(id: string, skeleton: string, rigModel: Option<string>)

  predicate IsPrefix(prefix: string, s: string) {
    prefix <= s
  }

  function Biped(id: string): Preset {
    Preset(id, "biped", if IsPrefix("preset:biped:", id) then Some(RIG_MODEL_BIPED) else None)
  }

  function Creature(id: string, skeleton: string): Preset {
    Preset(id, skeleton, Some(RIG_MODEL_GENERIC))
  }

  const ANIMATION_PRESETS: seq<Preset> := [
    Biped("preset:idle"), Biped("preset:walk"), Biped("preset:run"), Biped("preset:jump"),
    Biped("preset:climb"), Biped("preset:turn"), Biped("preset:slash"), Biped("preset:shoot"),
    Biped("preset:biped:front_kick_01"), Biped("preset:biped:box_01"), Biped("preset:biped:cast_a_spell"),
    Biped("preset:hurt"), Biped("preset:fall"), Biped("preset:dive"),
    Biped("preset:biped:defeat_02"), Biped("preset:biped:scared_01"),
    Biped("preset:biped:dance_01"), Biped("preset:biped:dance_02"), Biped("preset:biped:cheer"),
    Biped("preset:biped:victory_celebration"), Biped("preset:biped:wave_goodbye_01"), Biped("preset:biped:clap"),
    Biped("preset:biped:bow"), Biped("preset:biped:sit"), Biped("preset:biped:look_around"),
    Biped("preset:biped:standing_relax"), Biped("preset:biped:swim"),
    Creature("preset:quadruped:walk", "quadruped"), Creature("preset:hexapod:walk", "hexapod"),
    Creature("preset:octopod:walk", "octopod"), Creature("preset:serpentine:march", "serpentine"),
    Creature("preset:aquatic:march", "aquatic")
  ]

  function FindIn(presets: seq<Preset>, id: string): (p: Option<Preset>)
    ensures p.Some? ==> p.value in presets && p.value.id == id
    ensures p.None? ==> forall q :: q in presets ==> q.id != id
  {
    if presets == [] then None
    else if presets[|presets| - 1].id == id then Some(presets[|presets| - 1])
    else FindIn(presets[..|presets| - 1], id)
  }

  function FindAnimationPreset(id: string): Option<Preset> {
    FindIn(ANIMATION_PRESETS, id)
  }

  datatype Misfit = UnknownPreset | OtherSkeleton(only: string) | NeedsRig(model: string)

  /** Why a preset cannot retarget onto this skeleton and rig model (None: not known yet); None when it fits. */
  function PresetMisfit(id: string, rigType: string, rigModel: Option<string>): Option<Misfit> {
    var preset := FindAnimationPreset(id);
    if preset.None? then Some(UnknownPreset)
    else if preset.value.skeleton != rigType then Some(OtherSkeleton(preset.value.skeleton))
    else if preset.value.rigModel.Some? && rigModel.Some? && preset.value.rigModel != rigModel then Some(NeedsRig(preset.value.rigModel.value))
    else None
  }

  predicate Fits(id: string, rigType: string, rigModel: Option<string>) {
    PresetMisfit(id, rigType, rigModel).None?
  }

  /** What fits is a listed preset for exactly this skeleton, and not tied to another rig model. */
  lemma FittingPresetIsListed(id: string, rigType: string, rigModel: Option<string>) returns (p: Preset)
    requires Fits(id, rigType, rigModel)
    ensures p in ANIMATION_PRESETS && p.id == id && p.skeleton == rigType
    ensures p.rigModel.None? || rigModel.None? || p.rigModel == rigModel
  {
    p := FindAnimationPreset(id).value;
  }

  /** A preset fits one skeleton only. */
  lemma FitsOneSkeleton(id: string, rigType: string, otherType: string, rigModel: Option<string>, otherModel: Option<string>)
    requires Fits(id, rigType, rigModel) && Fits(id, otherType, otherModel)
    ensures rigType == otherType
  {
  }

  predicate AllFit(ids: seq<string>, rigType: string, rigModel: Option<string>) {
    forall id :: id in ids ==> Fits(id, rigType, rigModel)
  }

  /** The requested presets that do not fit, in request order. */
  function Misfits(ids: seq<string>, rigType: string, rigModel: Option<string>): (misfits: seq<string>)
    ensures forall id :: id in misfits <==> id in ids && !Fits(id, rigType, rigModel)
    ensures misfits == [] <==> AllFit(ids, rigType, rigModel)
  {
    if ids == [] then [] else
    var last := ids[|ids| - 1];
    var rest := Misfits(ids[..|ids| - 1], rigType, rigModel);
    assert forall id :: id in ids <==> id in ids[..|ids| - 1] || id == last;
    if Fits(last, rigType, rigModel) then rest else
    assert last in rest + [last];
    rest + [last]
  }

  /** The preset is tied to a rig model other than `model`. */
  predicate PinnedElsewhere(id: string, model: string) {
    var preset := FindAnimationPreset(id);
    preset.Some? && preset.value.rigModel.Some? && preset.value.rigModel.value != model
  }

  /**
   * Presets that passed the check before rigging still fit the model the rig step really used
   * exactly when none of them is tied to another model.
   */
  lemma FitsUsedModelIff(ids: seq<string>, rigType: string, requested: Option<string>, used: string)
    requires AllFit(ids, rigType, requested)
    ensures AllFit(ids, rigType, Some(used)) <==> forall id :: id in ids ==> !PinnedElsewhere(id, used)
  {
    forall id | id in ids ensures Fits(id, rigType, Some(used)) <==> !PinnedElsewhere(id, used) {
      assert Fits(id, rigType, requested);
    }
  }

  /** With an explicit model that the rig step honours, nothing can stop fitting. */
  lemma HonouredModelFits(ids: seq<string>, rigType: string, model: string)
    requires AllFit(ids, rigType, Some(model))
    ensures forall id :: id in ids ==> !PinnedElsewhere(id, model)
  {
    FitsUsedModelIff(ids, rigType, Some(model), model);
  }

  lemma OneFits(id: string, rigType: string, rigModel: Option<string>)
    ensures AllFit([id], rigType, rigModel) <==> Fits(id, rigType, rigModel)
  {
    assert id in [id];
  }

  lemma PinnedPresetMisfits(p: Preset, used: string)
    requires FindAnimationPreset(p.id) == Some(p) && p.rigModel.Some? && p.rigModel.value != used
    ensures AllFit([p.id], p.skeleton, None) && !AllFit([p.id], p.skeleton, Some(used))
  {
    OneFits(p.id, p.skeleton, None);
    OneFits(p.id, p.skeleton, Some(used));
  }

  /** With no model chosen, a humanoid preset passes the check and misfits a rig that fell back to the generic model. */
  lemma AutomaticModelCanMisfit()
    ensures exists id :: AllFit([id], "biped", None) && !AllFit([id], "biped", Some(RIG_MODEL_GENERIC))
  {
    var sit := SitIsListed();
    PinnedPresetMisfits(sit, RIG_MODEL_GENERIC);
    assert AllFit([sit.id], "biped", None);
  }

  lemma SitIsListed() returns (sit: Preset)
    ensures FindAnimationPreset(sit.id) == Some(sit)
    ensures sit.skeleton == "biped" && sit.rigModel.Some? && sit.rigModel.value != RIG_MODEL_GENERIC
  {
    sit := ANIMATION_PRESETS[23];
    assert "preset:biped:sit"[..13] == "preset:biped:";
    assert RIG_MODEL_BIPED[1] != RIG_MODEL_GENERIC[1];
    FindUnique(ANIMATION_PRESETS, 23);
  }

  lemma {:induction false} FindUnique(presets: seq<Preset>, k: nat)
    requires k < |presets| && forall j :: k < j < |presets| ==> presets[j].id != presets[k].id
    ensures FindIn(presets, presets[k].id) == Some(presets[k])
  {
    if k < |presets| - 1 {
      FindUnique(presets[..|presets| - 1], k);
    }
  }
}
