/** Named voices and presets. A preset that is linked to a named voice keeps a copy of the voice and
    reference its realization has; the tables are those of the database, ids are numbers. */
module NamedVoices {

  import opened Text

  type Id = nat

  datatype Preset = Preset(
    name: string, backend: string, model: Option<string>, voice: string, blend: Option<string>,
    reference: Option<string>, identity: Option<Id>)

  datatype Realization = Realization(voice: string, reference: Option<string>)

  /** The realizations of all named voices: at most one for each voice and model. */
  type Realizations = map<(Id, string), Realization>
  type Presets = map<Id, Preset>

  /** `model or backend` */
  function EffectiveModel(p: Preset): string {
    if p.model.Some? && p.model.value != "" then p.model.value else p.backend
  }

  /** `blend or voice` */
  function Recipe(p: Preset): string {
    if p.blend.Some? && p.blend.value != "" then p.blend.value else p.voice
  }

  function Stored(p: Preset): Realization { Realization(Recipe(p), p.reference) }

  predicate LinkedTo(p: Preset, identity: Id, model: string) {
    p.identity == Some(identity) && EffectiveModel(p) == model
  }

  /** The stored copy agrees with the realization. */
  predicate Agrees(p: Preset, realizations: Realizations) {
    p.identity.Some? ==>
      var key := (p.identity.value, EffectiveModel(p));
      key in realizations && realizations[key] == Stored(p)
  }

  /** What a preset speaks with: `ProfileManager.resolve`, which asks the realization of a linked
      preset and reports an error, here None, when there is none. */
  function Resolved(p: Preset, realizations: Realizations): Option<Realization> {
    if p.identity == None then Some(Stored(p))
    else
      var key := (p.identity.value, EffectiveModel(p));
      if key in realizations then Some(realizations[key]) else None
  }

  ghost predicate AllAgree(presets: Presets, realizations: Realizations) {
    forall id :: id in presets ==> Agrees(presets[id], realizations)
  }

  /** The copy is as good as the normal form. */
  lemma StoredIsResolved(presets: Presets, realizations: Realizations, id: Id)
    requires AllAgree(presets, realizations) && id in presets
    ensures Resolved(presets[id], realizations) == Some(Stored(presets[id]))
  {
    assert Agrees(presets[id], realizations);
  }

  /** No preset resolves to anything else than before. */
  ghost predicate SameVoices(before: Presets, beforeRealizations: Realizations, after: Presets, realizations: Realizations) {
    forall id :: id in before ==> id in after && Resolved(after[id], realizations) == Resolved(before[id], beforeRealizations)
  }

  ghost predicate Tables(presets: Presets, identities: map<Id, string>, realizations: Realizations,
      fold: string -> string, next: Id) {
    && (forall id :: id in presets ==> id < next)
    && (forall id :: id in identities ==> id < next)
    && (forall k :: k in realizations ==> k.0 in identities)
    && (forall a, b :: a in presets && b in presets && presets[a].name == presets[b].name ==> a == b)
    && (forall a, b :: a in identities && b in identities && fold(identities[a]) == fold(identities[b]) ==> a == b)
  }

  /** `_detach_presets`: the presets of a realization take its voice over. */
  function Detached(presets: Presets, identity: Id, model: string, r: Realization): Presets {
    map id | id in presets ::
      if LinkedTo(presets[id], identity, model)
      then presets[id].(identity := None, voice := r.voice, blend := None, reference := r.reference)
      else presets[id]
  }

  /** The presets of a realization follow its change. */
  function Revoiced(presets: Presets, identity: Id, model: string, r: Realization): Presets {
    map id | id in presets ::
      if LinkedTo(presets[id], identity, model)
      then presets[id].(voice := r.voice, blend := None, reference := r.reference)
      else presets[id]
  }

  /** Only the voice of the presets linked to the realization may be another one: they stay linked, and
      under the same model. */
  ghost predicate Follows(before: Presets, after: Presets, identity: Id, model: string) {
    && after.Keys == before.Keys
    && (forall id :: id in before ==>
          if LinkedTo(before[id], identity, model) then SameBut(before[id], after[id]) && after[id].identity == Some(identity)
          else after[id] == before[id])
  }

  /** The presets linked to the voice may have lost their link, and all others are as before. */
  ghost predicate Leaves(before: Presets, after: Presets, identity: Id) {
    && after.Keys == before.Keys
    && (forall id :: id in before ==>
          after[id] == before[id] || (before[id].identity == Some(identity) && SameBut(before[id], after[id]) && after[id].identity == None))
  }

  /** Everything but the link and the voice. */
  ghost predicate SameBut(p: Preset, q: Preset) {
    q.name == p.name && q.backend == p.backend && q.model == p.model
  }

  lemma DetachedLaw(presets: Presets, realizations: Realizations, identity: Id, model: string)
    requires AllAgree(presets, realizations) && (identity, model) in realizations
    ensures var after := Detached(presets, identity, model, realizations[(identity, model)]);
            && AllAgree(after, realizations) && AllAgree(after, realizations - {(identity, model)})
            && SameVoices(presets, realizations, after, realizations)
            && SameVoices(presets, realizations, after, realizations - {(identity, model)})
            && Leaves(presets, after, identity) && forall id :: id in after ==> !LinkedTo(after[id], identity, model)
  {
    var r := realizations[(identity, model)];
    var after := Detached(presets, identity, model, r);
    forall id | id in presets
      ensures Agrees(after[id], realizations) && Agrees(after[id], realizations - {(identity, model)})
      ensures Resolved(after[id], realizations) == Resolved(presets[id], realizations)
      ensures Resolved(after[id], realizations - {(identity, model)}) == Resolved(presets[id], realizations)
    {
      assert Agrees(presets[id], realizations);
    }
  }

  /** The presets of a voice are detached, except those of the models left. */
  ghost predicate Detaching(before: Presets, presets: Presets, realizations: Realizations, identity: Id, models: set<string>) {
    && Leaves(before, presets, identity) && SameVoices(before, realizations, presets, realizations)
    && (forall model :: model in models ==> (identity, model) in realizations)
    && (forall id :: id in presets && presets[id].identity == Some(identity) ==> EffectiveModel(presets[id]) in models)
  }

  lemma DetachStep(before: Presets, presets: Presets, realizations: Realizations, identity: Id, model: string, models: set<string>)
    requires AllAgree(presets, realizations) && Detaching(before, presets, realizations, identity, models + {model})
    ensures Detaching(before, Detached(presets, identity, model, realizations[(identity, model)]), realizations, identity, models)
  {
    DetachedLaw(presets, realizations, identity, model);
    var after := Detached(presets, identity, model, realizations[(identity, model)]);
    forall id | id in before
      ensures Resolved(after[id], realizations) == Resolved(before[id], realizations)
    {
      assert Resolved(presets[id], realizations) == Resolved(before[id], realizations);
    }
  }

  /** Dropping the realizations of a voice that no preset is linked to. */
  lemma WithoutVoice(presets: Presets, realizations: Realizations, identity: Id)
    requires AllAgree(presets, realizations) && forall id :: id in presets ==> presets[id].identity != Some(identity)
    ensures var less := map k | k in realizations && k.0 != identity :: realizations[k];
            AllAgree(presets, less) && SameVoices(presets, realizations, presets, less)
  {
    var less := map k | k in realizations && k.0 != identity :: realizations[k];
    forall id | id in presets
      ensures Agrees(presets[id], less) && Resolved(presets[id], less) == Resolved(presets[id], realizations)
    {
      assert Agrees(presets[id], realizations);
    }
  }

  lemma RevoicedLaw(presets: Presets, realizations: Realizations, identity: Id, model: string, r: Realization)
    requires AllAgree(presets, realizations) && (identity, model) in realizations
    ensures var after, more := Revoiced(presets, identity, model, r), realizations[(identity, model) := r];
            && AllAgree(after, more)
            && Follows(presets, after, identity, model)
            && (forall id :: id in presets ==>
                  Resolved(after[id], more)
                  == if LinkedTo(presets[id], identity, model) then Some(r) else Resolved(presets[id], realizations))
  {
    var after, more := Revoiced(presets, identity, model, r), realizations[(identity, model) := r];
    forall id | id in presets
      ensures Agrees(after[id], more)
    {
      assert Agrees(presets[id], realizations);
    }
  }

  datatype Outcome = Done | NotFound | NoRealization | NameTaken | Invalid

  /** The fields of an update: Some(v) where the request has the field. */
  datatype Changes = Changes(
    name: Option<string>, backend: Option<string>, model: Option<Option<string>>, voice: Option<string>,
    blend: Option<Option<string>>, reference: Option<Option<string>>, identity: Option<Option<Id>>)

  function Or<T>(change: Option<T>, otherwise: T): T {
    if change.Some? then change.value else otherwise
  }

  function Merged(p: Preset, c: Changes): Preset {
    Preset(Or(c.name, p.name), Or(c.backend, p.backend), Or(c.model, p.model), Or(c.voice, p.voice),
           Or(c.blend, p.blend), Or(c.reference, p.reference), Or(c.identity, p.identity))
  }

  /** A new voice of its own unlinks a preset from its named voice. */
  predicate Unlinks(p: Preset, c: Changes) {
    && c.identity == None
    && (Or(c.model, p.model) != p.model || Or(c.voice, p.voice) != p.voice
        || Or(c.blend, p.blend) != p.blend || Or(c.reference, p.reference) != p.reference)
  }

  function Wanted(p: Preset, c: Changes): Preset {
    if Unlinks(p, c) then Merged(p, c).(identity := None) else Merged(p, c)
  }

  /** The name belongs to another preset. */
  predicate Taken(presets: Presets, id: Id, name: string) {
    exists other :: other in presets && other != id && presets[other].name == name
  }

  /** A preset that is linked by its id takes the realization's voice over. */
  function Copied(p: Preset, r: Realization): Preset {
    p.(voice := r.voice, blend := None, reference := r.reference)
  }

  class Catalog {
    const fold: string -> string      // COLLATE NOCASE
    const spaces: set<char>           // what str.strip removes
    var presets: Presets
    var identities: map<Id, string>
    var realizations: Realizations
    var imports: set<string>          // folded names
    var next: Id

    ghost predicate Valid()
      reads this
    {
      Tables(presets, identities, realizations, fold, next) && AllAgree(presets, realizations)
    }

    constructor (fold: string -> string, spaces: set<char>)
      ensures Valid() && presets == map[]
    {
      this.fold, this.spaces := fold, spaces;
      presets, identities, realizations, imports, next := map[], map[], map[], {}, 0;
    }

    // --------------------------------------------------------------------------- named voices

    predicate NameTaken(id: Id, name: string)
      reads this`identities
    {
      exists other :: other in identities && other != id && fold(identities[other]) == fold(name)
    }

    method CreateVoice(name: string) returns (outcome: Outcome, id: Id)
      requires Valid()
      modifies this`identities, this`next
      ensures Valid()
      ensures outcome == if Strip(spaces, name) == [] then Invalid else if old(NameTaken(next, Strip(spaces, name))) then Outcome.NameTaken else Done
      ensures if outcome == Done then id !in old(identities) && identities == old(identities)[id := Strip(spaces, name)] else identities == old(identities)
    {
      id := next;
      var stripped := Strip(spaces, name);
      if stripped == [] { return Invalid, id; }
      if NameTaken(next, stripped) { return Outcome.NameTaken, id; }
      identities := identities[next := stripped];
      next := next + 1;
      outcome := Done;
    }

    method Rename(identity: Id, name: string) returns (outcome: Outcome)
      requires Valid()
      modifies this`identities
      ensures Valid() && identities.Keys == old(identities).Keys
      ensures outcome == if identity !in identities then NotFound
                         else if Strip(spaces, name) == [] then Invalid
                         else if old(NameTaken(identity, Strip(spaces, name))) then Outcome.NameTaken
                         else Done
      ensures if outcome == Done then identities == old(identities)[identity := Strip(spaces, name)] else identities == old(identities)
    {
      if identity !in identities { return NotFound; }
      var stripped := Strip(spaces, name);
      if stripped == [] { return Invalid; }
      if NameTaken(identity, stripped) { return Outcome.NameTaken; }
      identities := identities[identity := stripped];
      outcome := Done;
    }

    function Lookup(identity: Id, model: string): Outcome
      reads this`identities, this`realizations
    {
      if identity !in identities then NotFound else if (identity, model) !in realizations then NoRealization else Done
    }

    /** `VoiceIdentityManager.resolve` */
    method Resolve(identity: Id, model: string) returns (outcome: Outcome, r: Realization)
      ensures outcome == Lookup(identity, model)
      ensures outcome == Done ==> r == realizations[(identity, model)]
    {
      r := Realization("", None);
      if identity !in identities { return NotFound, r; }
      if (identity, model) !in realizations { return NoRealization, r; }
      return Done, realizations[(identity, model)];
    }

    method AddRealization(identity: Id, model: string, voice: string, reference: Option<string>) returns (outcome: Outcome)
      requires Valid()
      modifies this`realizations
      ensures Valid()
      ensures outcome ==
              if identity !in identities then NotFound
              else if Strip(spaces, model) == [] || Strip(spaces, voice) == [] || "voice:" <= Strip(spaces, voice) then Invalid
              else if (identity, Strip(spaces, model)) in old(realizations) then Outcome.NameTaken
              else Done
      ensures if outcome == Done then
                var key := (identity, Strip(spaces, model));
                key !in old(realizations) && realizations == old(realizations)[key := Realization(Strip(spaces, voice), reference)]
              else realizations == old(realizations)
      ensures SameVoices(presets, old(realizations), presets, realizations)
    {
      if identity !in identities { return NotFound; }
      var exact, provider := Strip(spaces, model), Strip(spaces, voice);
      if exact == [] || provider == [] || "voice:" <= provider { return Invalid; }
      if (identity, exact) in realizations { return Outcome.NameTaken; }
      realizations := realizations[(identity, exact) := Realization(provider, reference)];
      outcome := Done;
    }

    /** The linked presets follow; nobody else changes. */
    method UpdateRealization(identity: Id, model: string, voice: string,
        reference: Option<string>) returns (outcome: Outcome)
      requires Valid()
      modifies this`realizations, this`presets
      ensures Valid() && Follows(old(presets), presets, identity, model) && outcome == old(Lookup(identity, model))
      ensures outcome == Done ==> realizations == old(realizations)[(identity, model) := Realization(voice, reference)]
      ensures outcome == Done ==> forall id :: id in presets ==>
                Resolved(presets[id], realizations)
                == if LinkedTo(old(presets)[id], identity, model) then Some(Realization(voice, reference))
                   else Resolved(old(presets)[id], old(realizations))
      ensures outcome != Done ==> presets == old(presets) && realizations == old(realizations)
    {
      var found;
      outcome, found := Resolve(identity, model);
      if outcome == Done {
        var r := Realization(voice, reference);
        RevoicedLaw(presets, realizations, identity, model, r);
        presets := Revoiced(presets, identity, model, r);
        realizations := realizations[(identity, model) := r];
      }
    }

    /** The presets of the realization stand alone from now on, with the same voice. */
    method DeleteRealization(identity: Id, model: string) returns (outcome: Outcome)
      requires Valid()
      modifies this`realizations, this`presets
      ensures Valid() && Leaves(old(presets), presets, identity) && outcome == old(Lookup(identity, model))
      ensures SameVoices(old(presets), old(realizations), presets, realizations)
      ensures if outcome == Done then realizations == old(realizations) - {(identity, model)} && forall id :: id in presets ==> !LinkedTo(presets[id], identity, model)
              else presets == old(presets) && realizations == old(realizations)
    {
      var found;
      outcome, found := Resolve(identity, model);
      if outcome == Done {
        DetachedLaw(presets, realizations, identity, model);
        presets := Detached(presets, identity, model, found);
        realizations := realizations - {(identity, model)};
      }
    }

    /** `VoiceIdentityManager.delete` */
    method DeleteVoice(identity: Id) returns (outcome: Outcome)
      requires Valid()
      modifies this`realizations, this`presets, this`identities
      ensures Valid() && Leaves(old(presets), presets, identity)
      ensures SameVoices(old(presets), old(realizations), presets, realizations)
      ensures outcome == if identity in old(identities) then Done else NotFound
      ensures outcome == Done ==> identities == old(identities) - {identity} && forall id :: id in presets ==> presets[id].identity != Some(identity)
      ensures forall key :: key in old(realizations) && (outcome == Done ==> key.0 != identity) ==>
                key in realizations && realizations[key] == old(realizations)[key]
      ensures outcome != Done ==> presets == old(presets) && realizations == old(realizations) && identities == old(identities)
    {
      if identity !in identities { return NotFound; }
      DetachAll(identity);
      WithoutVoice(presets, realizations, identity);
      realizations := map k | k in realizations && k.0 != identity :: realizations[k];
      identities := identities - {identity};
      outcome := Done;
    }

    /** The loop over the realizations of a voice, and the presets that are left. */
    method DetachAll(identity: Id)
      requires Valid()
      modifies this`presets
      ensures Valid() && Leaves(old(presets), presets, identity)
      ensures SameVoices(old(presets), realizations, presets, realizations)
      ensures forall id :: id in presets ==> presets[id].identity != Some(identity)
    {
      var models := set k | k in realizations && k.0 == identity :: k.1;
      while models != {}
        invariant Valid() && Detaching(old(presets), presets, realizations, identity, models)
        decreases |models|
      {
        var model :| model in models;
        models := models - {model};
        DetachPresets(identity, model, old(presets), models);
      }
      assert forall id :: id in presets ==> presets[id].identity != Some(identity);   // the source's UPDATE ... SET NULL finds none
    }

    method DetachPresets(identity: Id, model: string, ghost before: Presets, ghost models: set<string>)
      requires Valid() && Detaching(before, presets, realizations, identity, models + {model})
      modifies this`presets
      ensures Valid() && Detaching(before, presets, realizations, identity, models)
    {
      DetachedLaw(presets, realizations, identity, model);
      DetachStep(before, presets, realizations, identity, model, models);
      presets := Detached(presets, identity, model, realizations[(identity, model)]);
    }

    // -------------------------------------------------------------------------------- presets

    /** What stands against a link, if the preset has one. */
    function LinkOutcome(wanted: Preset): Outcome
      reads this`identities, this`realizations
    {
      if wanted.identity == None then Done else Lookup(wanted.identity.value, EffectiveModel(wanted))
    }

    /** A preset as `create` and `update` store it: linked ones take their realization's voice. */
    method Settled(wanted: Preset) returns (outcome: Outcome, p: Preset)
      ensures outcome == LinkOutcome(wanted)
      ensures outcome == Done ==> Agrees(p, realizations) && p.identity == wanted.identity && EffectiveModel(p) == EffectiveModel(wanted)
      ensures outcome == Done ==> p == if p.identity == None then wanted else Copied(wanted, Stored(p))
    {
      outcome, p := Done, wanted;
      if wanted.identity.Some? {
        var r;
        outcome, r := Resolve(wanted.identity.value, EffectiveModel(wanted));
        p := Copied(wanted, r);
      }
    }

    /** `ProfileManager.create` */
    method CreatePreset(wanted: Preset) returns (outcome: Outcome, id: Id)
      requires Valid()
      modifies this`presets, this`next
      ensures Valid() && SameVoices(old(presets), realizations, presets, realizations)
      ensures outcome == if LinkOutcome(wanted) != Done then LinkOutcome(wanted)
                         else if Taken(old(presets), old(next), wanted.name) then Outcome.NameTaken else Done
      ensures outcome == Done ==>
                && id !in old(presets) && id in presets && presets == old(presets)[id := presets[id]]
                && SameBut(wanted, presets[id]) && presets[id].identity == wanted.identity
                && Resolved(presets[id], realizations) ==
                   (if wanted.identity == None then Some(Stored(wanted)) else Resolved(wanted, realizations))
      ensures outcome != Done ==> presets == old(presets)
    {
      id := next;
      var p;
      outcome, p := Settled(wanted);
      if outcome == Done && Taken(presets, next, p.name) { outcome := Outcome.NameTaken; }
      if outcome == Done {
        presets := presets[next := p];
        next := next + 1;
      }
    }

    /** `ProfileManager.update` */
    method UpdatePreset(id: Id, c: Changes) returns (outcome: Outcome)
      requires Valid()
      modifies this`presets
      ensures Valid() && presets.Keys == old(presets).Keys
      ensures outcome ==
              if id !in old(presets) then NotFound
              else
                var wanted := Wanted(old(presets)[id], c);
                if LinkOutcome(wanted) != Done then LinkOutcome(wanted)
                else if Taken(old(presets), id, wanted.name) then Outcome.NameTaken else Done
      ensures outcome != Done ==> presets == old(presets)
      ensures forall other :: other in presets && other != id ==> presets[other] == old(presets)[other]
      ensures outcome == Done ==> id in presets && Updated(old(presets)[id], c, presets[id], realizations)
    {
      if id !in presets { return NotFound; }
      var wanted := Wanted(presets[id], c);
      var p;
      outcome, p := Settled(wanted);
      if outcome == Done && Taken(presets, id, p.name) { outcome := Outcome.NameTaken; }
      if outcome == Done {
        presets := presets[id := p];
      }
    }

    method DeletePreset(id: Id) returns (deleted: bool)
      requires Valid()
      modifies this`presets
      ensures Valid() && presets == old(presets) - {id} && deleted == (id in old(presets))
    {
      deleted := id in presets;
      presets := presets - {id};
    }

    /** `ProfileManager.resolve`: a preset that exists always resolves, and to what it stores. */
    method ResolvePreset(id: Id) returns (r: Option<Realization>)
      requires Valid()
      ensures r == if id in presets then Some(Stored(presets[id])) else None
      ensures id in presets ==> r == Resolved(presets[id], realizations)
    {
      if id !in presets { return None; }
      StoredIsResolved(presets, realizations, id);
      var p := presets[id];
      if p.identity.Some? {
        var outcome, found := Resolve(p.identity.value, EffectiveModel(p));
        r := Some(found);
      } else {
        r := Some(Realization(Recipe(p), p.reference));
      }
    }

    // ------------------------------------------------------------------------------ migration

    /** The identity that has the name, or a new one. */
    method IdentityFor(name: string) returns (identity: Id)
      requires Valid()
      modifies this`identities, this`next
      ensures Valid() && identity in identities && fold(identities[identity]) == fold(name)
      ensures forall i :: i in old(identities) ==> i in identities && identities[i] == old(identities)[i]
    {
      if NameTaken(next, name) {
        identity :| identity in identities && identity != next && fold(identities[identity]) == fold(name);
      } else {
        identity := next;
        identities := identities[next := name];
        next := next + 1;
      }
    }

    /** One row of the migration: it is linked, unless the voice of its name has another recipe. */
    method LinkLegacy(id: Id)
      requires Valid() && id in presets && presets[id].identity == None
      modifies this`presets, this`identities, this`realizations, this`next
      ensures Valid() && OnlyLinked(old(presets), presets) && Migrated(presets[id], identities, realizations, fold)
      ensures forall other :: other in presets && other != id ==> presets[other] == old(presets)[other]
      ensures SameVoices(old(presets), old(realizations), presets, realizations)
      ensures Grown(old(identities), old(realizations), identities, realizations)
    {
      var p := presets[id];
      var model := EffectiveModel(p);
      if model == "" { return; }
      var identity := IdentityFor(p.name);
      var key := (identity, model);
      if key in realizations && realizations[key] != Stored(p) {
        return;
      }
      Link(id, identity);
    }

    method Link(id: Id, identity: Id)
      requires Valid() && id in presets && presets[id].identity == None && identity in identities && EffectiveModel(presets[id]) != ""
      requires var key := (identity, EffectiveModel(presets[id])); key in realizations ==> realizations[key] == Stored(presets[id])
      modifies this`presets, this`realizations
      ensures Valid() && OnlyLinked(old(presets), presets) && presets == old(presets)[id := old(presets)[id].(identity := Some(identity))]
      ensures SameVoices(old(presets), old(realizations), presets, realizations)
      ensures Grown(identities, old(realizations), identities, realizations)
    {
      var p := presets[id];
      var key := (identity, EffectiveModel(p));
      LinkLaw(presets, realizations, id, identity);
      if key !in realizations {
        realizations := realizations[key := Stored(p)];
      }
      presets := presets[id := p.(identity := Some(identity))];
    }

    /** The body of the migration's loop. */
    method MigrateOne(id: Id, only: Option<set<Id>>, ghost left: set<Id>, ghost presets0: Presets,
        ghost realizations0: Realizations)
      requires Valid() && Migrating(presets0, realizations0, presets, identities, realizations, left + {id}, only, fold) && id !in left
      modifies this`presets, this`identities, this`realizations, this`next
      ensures Valid() && Migrating(presets0, realizations0, presets, identities, realizations, left, only, fold)
    {
      if Included(only, id) {
        ghost var before, names, voices := presets, identities, realizations;
        LinkLegacy(id);
        MigrateStep(presets0, realizations0, before, names, voices, presets, identities, realizations, id, left, only, fold);
      }
    }

    /** `migrate_legacy_profiles`, over all unlinked presets or those of a list: nothing resolves to
        anything else, and what stays unlinked has a reason. */
    method MigrateLegacy(only: Option<set<Id>>)
      requires Valid()
      modifies this`presets, this`identities, this`realizations, this`next
      ensures Valid() && OnlyLinked(old(presets), presets)
      ensures SameVoices(old(presets), old(realizations), presets, realizations)
      ensures forall id :: id in presets && Included(only, id) ==> Migrated(presets[id], identities, realizations, fold)
      ensures forall id :: id in presets && !Included(only, id) ==> presets[id] == old(presets)[id]
    {
      var left := set id | id in presets && presets[id].identity == None;
      while left != {}
        invariant Valid()
        invariant Migrating(old(presets), old(realizations), presets, identities, realizations, left, only, fold)
        decreases |left|
      {
        var id :| id in left;
        assert left == (left - {id}) + {id};
        left := left - {id};
        MigrateOne(id, only, left, old(presets), old(realizations));
      }
    }

    /** One preset of an import, without its link. */
    method ImportPreset(wanted: Preset) returns (added: set<Id>)
      requires Valid() && wanted.identity == None
      modifies this`presets, this`imports, this`next
      ensures Valid() && imports == old(imports) + {fold(wanted.name)}
      ensures if fold(wanted.name) in old(imports) || old(UsesName(fold(wanted.name))) then added == {} && presets == old(presets)
              else added == {old(next)} && old(next) !in old(presets) && presets == old(presets)[old(next) := wanted]
    {
      added := {};
      var name := fold(wanted.name);
      if name !in imports {
        if !UsesName(name) {
          presets := presets[next := wanted];
          added := {next};
          next := next + 1;
        }
        imports := imports + {name};
      }
    }

    /** `import_presets`: presets of names never imported before, and not used by a preset, are added,
        and then linked. */
    method ImportPresets(wanted: seq<Preset>)
      requires Valid() && forall k :: 0 <= k < |wanted| ==> wanted[k].identity == None
      modifies this`presets, this`identities, this`realizations, this`imports, this`next
      ensures Valid() && SameVoices(old(presets), old(realizations), presets, realizations)
      ensures forall k :: 0 <= k < |wanted| ==> fold(wanted[k].name) in imports
      ensures forall name :: name in imports ==> name in old(imports) || exists k :: 0 <= k < |wanted| && fold(wanted[k].name) == name
      ensures forall id :: id in old(presets) ==> presets[id] == old(presets)[id]
      ensures forall id :: id in presets && id !in old(presets) ==>
                exists k :: 0 <= k < |wanted| && presets[id] == wanted[k].(identity := presets[id].identity) &&
                            Resolved(presets[id], realizations) == Some(Stored(wanted[k]))
      ensures ImportedOnce(old(presets), old(imports), presets, wanted, |wanted|, fold)
    {
      var imported := AddPresets(wanted);
      ghost var before := presets;
      MigrateLegacy(Some(imported));
      forall id | id in presets && id !in old(presets)
        ensures exists k :: 0 <= k < |wanted| && presets[id] == wanted[k].(identity := presets[id].identity) &&
                            Resolved(presets[id], realizations) == Some(Stored(wanted[k]))
      {
        var k :| 0 <= k < |wanted| && before[id] == wanted[k];
      }
      LinkedIsImported(old(presets), old(imports), before, presets, wanted, |wanted|, fold);
    }

    /** The loop of the import. */
    method AddPresets(wanted: seq<Preset>) returns (imported: set<Id>)
      requires Valid() && forall k :: 0 <= k < |wanted| ==> wanted[k].identity == None
      modifies this`presets, this`imports, this`next
      ensures Valid() && Added(old(presets), presets, imported, wanted, |wanted|)
      ensures Noted(old(imports), imports, wanted, |wanted|, fold)
      ensures ImportedOnce(old(presets), old(imports), presets, wanted, |wanted|, fold)
    {
      imported := {};
      for i := 0 to |wanted|
        invariant Valid() && Added(old(presets), presets, imported, wanted, i)
        invariant Noted(old(imports), imports, wanted, i, fold)
        invariant ImportedOnce(old(presets), old(imports), presets, wanted, i, fold)
      {
        ghost var before, noted, id := presets, imports, next;
        var added := ImportPreset(wanted[i]);
        imported := imported + added;
        ImportStep(old(presets), old(imports), before, noted, presets, id, wanted, i, fold);
      }
    }

    predicate UsesName(folded: string)
      reads this`presets
    {
      exists id :: id in presets && fold(presets[id].name) == folded
    }
  }

  /** Some of the first `n` wanted presets were added, under new ids. */
  ghost predicate Added(before: Presets, presets: Presets, imported: set<Id>, wanted: seq<Preset>, n: nat)
    requires n <= |wanted|
  {
    && before.Keys !! imported && imported <= presets.Keys
    && (forall id :: id in before ==> id in presets && presets[id] == before[id])
    && (forall id :: id in presets && id !in before ==> exists k :: 0 <= k < n && presets[id] == wanted[k])
  }

  /** Their names, and no others, were noted as imported. */
  ghost predicate Noted(before: set<string>, imports: set<string>, wanted: seq<Preset>, n: nat, fold: string -> string)
    requires n <= |wanted|
  {
    && before <= imports && (forall k :: 0 <= k < n ==> fold(wanted[k].name) in imports)
    && (forall name :: name in imports ==> name in before || exists k :: 0 <= k < n && fold(wanted[k].name) == name)
  }

  /** What the first `n` wanted presets have led to: a name never imported before and used by no preset
      has exactly one now, and no other was added. */
  ghost predicate ImportedOnce(before: Presets, imports: set<string>, presets: Presets, wanted: seq<Preset>, n: nat,
                               fold: string -> string)
    requires n <= |wanted|
  {
    && (forall id :: id in presets && id !in before ==>
          fold(presets[id].name) !in imports && forall other :: other in presets && other != id ==> fold(presets[other].name) != fold(presets[id].name))
    && (forall k :: 0 <= k < n ==> fold(wanted[k].name) in imports || HasName(presets, fold(wanted[k].name), fold))
  }

  ghost predicate HasName(presets: Presets, folded: string, fold: string -> string) {
    exists id :: id in presets && fold(presets[id].name) == folded
  }

  lemma ImportStep(before: Presets, imports: set<string>, presets: Presets, noted: set<string>, after: Presets, id: Id,
      wanted: seq<Preset>, n: nat, fold: string -> string)
    requires n < |wanted| && ImportedOnce(before, imports, presets, wanted, n, fold) && Noted(imports, noted, wanted, n, fold)
    requires var name := fold(wanted[n].name);
             || (after == presets && (name in noted || HasName(presets, name, fold)))
             || (after == presets[id := wanted[n]] && id !in presets && name !in noted && !HasName(presets, name, fold))
    ensures ImportedOnce(before, imports, after, wanted, n + 1, fold)
  {
    forall k | 0 <= k < n && HasName(presets, fold(wanted[k].name), fold)
      ensures HasName(after, fold(wanted[k].name), fold)
    {
      var other :| other in presets && fold(presets[other].name) == fold(wanted[k].name);
      assert after[other] == presets[other];
    }
    if after != presets { assert after[id] == wanted[n]; }
    if k :| 0 <= k < n && fold(wanted[k].name) == fold(wanted[n].name) {
      assert fold(wanted[k].name) in imports || HasName(presets, fold(wanted[k].name), fold);
    }
  }

  lemma LinkedIsImported(before: Presets, imports: set<string>, presets: Presets, after: Presets, wanted: seq<Preset>,
      n: nat, fold: string -> string)
    requires n <= |wanted| && ImportedOnce(before, imports, presets, wanted, n, fold) && OnlyLinked(presets, after)
    ensures ImportedOnce(before, imports, after, wanted, n, fold)
  {
    forall k | 0 <= k < n && HasName(presets, fold(wanted[k].name), fold)
      ensures HasName(after, fold(wanted[k].name), fold)
    {
      var id :| id in presets && fold(presets[id].name) == fold(wanted[k].name);
      assert fold(after[id].name) == fold(wanted[k].name);
    }
  }

  /** Linking a preset to a realization with its own recipe. */
  lemma LinkLaw(presets: Presets, realizations: Realizations, id: Id, identity: Id)
    requires AllAgree(presets, realizations) && id in presets && presets[id].identity == None
    requires var key := (identity, EffectiveModel(presets[id])); key in realizations ==> realizations[key] == Stored(presets[id])
    ensures var p := presets[id];
            var more := realizations[(identity, EffectiveModel(p)) := Stored(p)];
            var linked := presets[id := p.(identity := Some(identity))];
            && AllAgree(linked, more) && SameVoices(presets, realizations, linked, more) && OnlyLinked(presets, linked)
            && (forall k :: k in realizations ==> k in more && more[k] == realizations[k])
            && ((identity, EffectiveModel(p)) in realizations ==> more == realizations)
  {
    var p := presets[id];
    var more := realizations[(identity, EffectiveModel(p)) := Stored(p)];
    forall other | other in presets
      ensures Agrees(presets[other], more) && Resolved(presets[other], more) == Resolved(presets[other], realizations)
    {
      assert Agrees(presets[other], realizations);
    }
  }

  /** The migration has dealt with all presets but those in `left`. */
  ghost predicate Migrating(presets0: Presets, realizations0: Realizations, presets: Presets, identities: map<Id, string>,
                            realizations: Realizations, left: set<Id>, only: Option<set<Id>>, fold: string -> string) {
    && OnlyLinked(presets0, presets) && SameVoices(presets0, realizations0, presets, realizations)
    && (forall id :: id in left ==> id in presets && presets[id].identity == None)
    && (forall id :: id in presets && id !in left && Included(only, id) ==> Migrated(presets[id], identities, realizations, fold))
    && (forall id :: id in presets && !Included(only, id) ==> presets[id] == presets0[id])
  }

  predicate Included(only: Option<set<Id>>, id: Id) { only == None || id in only.value }

  lemma MigrateStep(presets0: Presets, realizations0: Realizations, presets: Presets, identities: map<Id, string>,
      realizations: Realizations, presets': Presets, identities': map<Id, string>, realizations': Realizations,
      id: Id, left: set<Id>, only: Option<set<Id>>, fold: string -> string)
    requires Migrating(presets0, realizations0, presets, identities, realizations, left + {id}, only, fold)
    requires id !in left && id in presets && Included(only, id)
    requires OnlyLinked(presets, presets') && SameVoices(presets, realizations, presets', realizations')
    requires Grown(identities, realizations, identities', realizations') && Migrated(presets'[id], identities', realizations', fold)
    requires forall other :: other in presets' && other != id ==> presets'[other] == presets[other]
    ensures Migrating(presets0, realizations0, presets', identities', realizations', left, only, fold)
  {
    forall other | other in presets' && other !in left && Included(only, other)
      ensures Migrated(presets'[other], identities', realizations', fold)
    {
      assert other == id || presets'[other] == presets[other];
    }
  }

  /** What an update makes of a preset. */
  ghost predicate Updated(p: Preset, c: Changes, after: Preset, realizations: Realizations) {
    var model, voice, blend, reference := Or(c.model, p.model), Or(c.voice, p.voice), Or(c.blend, p.blend), Or(c.reference, p.reference);
    && after.name == Or(c.name, p.name) && after.backend == Or(c.backend, p.backend) && after.model == model
    && after.identity == (if c.identity.Some? then c.identity.value
                          else if (model, voice, blend, reference) == (p.model, p.voice, p.blend, p.reference) then p.identity
                          else None)
    && Agrees(after, realizations)
    && (after.identity == None ==> (after.voice, after.blend, after.reference) == (voice, blend, reference))
  }

  /** Presets were linked, and nothing else. */
  ghost predicate OnlyLinked(before: Presets, after: Presets) {
    && before.Keys == after.Keys
    && (forall id :: id in before ==> after[id] == before[id] || (before[id].identity == None && after[id] == before[id].(identity := after[id].identity)))
  }

  /** A preset is linked, or has no model, or the voice of its name has another recipe for it. */
  ghost predicate Migrated(p: Preset, identities: map<Id, string>, realizations: Realizations, fold: string -> string) {
    || p.identity.Some? || EffectiveModel(p) == ""
    || exists i :: i in identities && fold(identities[i]) == fold(p.name) &&
         (i, EffectiveModel(p)) in realizations && realizations[(i, EffectiveModel(p))] != Stored(p)
  }

  ghost predicate Grown(identities: map<Id, string>, realizations: Realizations, identities': map<Id, string>,
      realizations': Realizations) {
    && (forall i :: i in identities ==> i in identities' && identities'[i] == identities[i])
    && (forall k :: k in realizations ==> k in realizations' && realizations'[k] == realizations[k])
  }
}
