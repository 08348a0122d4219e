/** Cards and their profiles (src/pulsecore/card.c): a profile's defaults, the
    data a card is created from, the choice of the active profile when a card
    is created, and switching profiles. A card's profile hashmap is a sequence
    in the hashmap's iteration order with pairwise distinct names; the active
    profile is held by value, which names one entry since names are distinct. */
module Cards {
  import opened Common

  /** pa_card_profile. The description may be NULL. */
  datatype CardProfile = CardProfile(
    name: string,
    description: Option<string>,
    priority: nat,
    nSinks: nat,
    nSources: nat,
    maxSinkChannels: nat,
    maxSourceChannels: nat)

  /** pa_card_profile_new: the given name and description, priority 0, no
      sinks or sources and no channels. */
  function ProfileNew(name: string, description: Option<string>): (p: CardProfile)
    ensures p.name == name && p.description == description
    ensures p.priority == 0
    ensures p.nSinks == 0 && p.nSources == 0 && p.maxSinkChannels == 0 && p.maxSourceChannels == 0
  {
    CardProfile(name, description, 0, 0, 0, 0, 0)
  }

  /** The keys of a hashmap are distinct. */
  predicate UniqueNames(ps: seq<CardProfile>) {
    forall i, j | 0 <= i < j < |ps| :: ps[i].name != ps[j].name
  }

  /** pa_hashmap_get on the profile map: the entry with that name, if any. */
  function Lookup(ps: seq<CardProfile>, name: string): (r: Option<CardProfile>)
    ensures r.Some? <==> exists k | 0 <= k < |ps| :: ps[k].name == name
    ensures r.Some? ==> r.value in ps && r.value.name == name
    decreases |ps|
  {
    if ps == [] then None
    else if ps[0].name == name then Some(ps[0])
    else
      var r := Lookup(ps[1..], name);
      assert forall k | 1 <= k < |ps| :: ps[k] == ps[1..][k - 1];
      r
  }

  /** With distinct names, Lookup finds exactly the entry of that name. */
  lemma LookupFindsEntry(ps: seq<CardProfile>, k: nat)
    requires UniqueNames(ps) && k < |ps|
    ensures Lookup(ps, ps[k].name) == Some(ps[k])
  {
    var r := Lookup(ps, ps[k].name);
    var j :| 0 <= j < |ps| && ps[j] == r.value;
  }

  /** The index the loop of pa_card_new settles on for a non-empty map: the
      first entry is taken, and a later one replaces the current choice only
      when its priority is strictly higher. */
  function FirstHighest(ps: seq<CardProfile>): (i: nat)
    requires ps != []
    ensures i < |ps|
    decreases |ps|
  {
    if |ps| == 1 then 0
    else
      var b := FirstHighest(ps[..|ps| - 1]);
      if ps[|ps| - 1].priority > ps[..|ps| - 1][b].priority then |ps| - 1 else b
  }

  /** Entry `i` has the highest priority, and no earlier entry has as high a one. */
  ghost predicate IsFirstHighest(ps: seq<CardProfile>, i: nat) {
    i < |ps|
    && (forall j | 0 <= j < |ps| :: ps[j].priority <= ps[i].priority)
    && (forall j | 0 <= j < i :: ps[j].priority < ps[i].priority)
  }

  /** The loop picks a profile of the highest priority, the first in iteration
      order among equals. */
  lemma {:induction false} FirstHighestIsFirstHighest(ps: seq<CardProfile>)
    requires ps != []
    ensures IsFirstHighest(ps, FirstHighest(ps))
    decreases |ps|
  {
    if |ps| > 1 {
      var init := ps[..|ps| - 1];
      FirstHighestIsFirstHighest(init);
      assert forall j | 0 <= j < |init| :: init[j] == ps[j];
    }
  }

  /** The active profile pa_card_new chooses: the requested one if the map has
      it; otherwise the first of highest priority; none without a map or with
      an empty one. */
  function ActiveChoice(profiles: Option<seq<CardProfile>>, requested: Option<string>): (r: Option<CardProfile>)
    ensures r.Some? ==> profiles.Some? && r.value in profiles.value
    ensures r.None? <==> profiles.None? || profiles.value == []
  {
    if profiles.None? then None
    else
      var ps := profiles.value;
      var found := if requested.Some? then Lookup(ps, requested.value) else None;
      if found.Some? then found
      else if ps == [] then None
      else Some(ps[FirstHighest(ps)])
  }

  /** What the choice means: a requested name present in the map wins;
      otherwise the chosen profile has the highest priority and no earlier
      entry has as high a one. */
  lemma ActiveChoiceSpec(profiles: Option<seq<CardProfile>>, requested: Option<string>)
    requires profiles.Some? && profiles.value != []
    ensures requested.Some? && Lookup(profiles.value, requested.value).Some? ==>
      ActiveChoice(profiles, requested).value.name == requested.value
    ensures requested.None? || Lookup(profiles.value, requested.value).None? ==>
      exists i | 0 <= i < |profiles.value| ::
        ActiveChoice(profiles, requested) == Some(profiles.value[i]) && IsFirstHighest(profiles.value, i)
  {
    FirstHighestIsFirstHighest(profiles.value);
  }

  /** Profiles fresh from pa_card_profile_new all have priority 0, so without
      a request the first one in iteration order becomes active. */
  lemma FreshProfilesPickFirst(ps: seq<CardProfile>)
    requires ps != [] && forall k | 0 <= k < |ps| :: ps[k] == ProfileNew(ps[k].name, ps[k].description)
    ensures ActiveChoice(Some(ps), None) == Some(ps[0])
  {
    FirstHighestIsFirstHighest(ps);
  }

  /** The selection of lines 143-158 of pa_card_new: look the requested name
      up, then, if nothing was found, walk the map keeping the current choice
      unless a profile of strictly higher priority comes along. */
  method ChooseActiveProfile(profiles: Option<seq<CardProfile>>, requested: Option<string>)
    returns (active: Option<CardProfile>)
    ensures active == ActiveChoice(profiles, requested)
  {
    active := None;
    if requested.Some? && profiles.Some? {
      active := Lookup(profiles.value, requested.value);
    }
    if active.None? && profiles.Some? {
      var ps := profiles.value;
      var i := 0;
      while i < |ps|
        invariant 0 <= i <= |ps|
        invariant i == 0 <==> active.None?
        invariant i > 0 ==> active == Some(ps[..i][FirstHighest(ps[..i])])
      {
        assert ps[..i + 1][..i] == ps[..i];
        if active.None? || ps[i].priority > active.value.priority {
          active := Some(ps[i]);
        }
        i := i + 1;
      }
      assert ps[..i] == ps;
    }
  }

  /** What pa_card_set_profile does: the return value, the new active profile
      and whether the card's set_profile callback is invoked. `callbackOk` is
      the callback's verdict, decided by the card's implementation. */
  datatype SwitchOutcome = SwitchOutcome(code: int, active: Option<CardProfile>, callbackInvoked: bool)

  function SwitchProfile(hasCallback: bool, profiles: Option<seq<CardProfile>>, active: Option<CardProfile>,
                         name: string, callbackOk: bool): (o: SwitchOutcome)
    ensures o.code == 0 || o.code == -1
    ensures o.code == -1 ==> o.active == active
    ensures o.callbackInvoked ==> hasCallback
  {
    if !hasCallback || profiles.None? then SwitchOutcome(-1, active, false)
    else
      var p := Lookup(profiles.value, name);
      if p.None? then SwitchOutcome(-1, active, false)
      else if active == p then SwitchOutcome(0, active, false)
      else if !callbackOk then SwitchOutcome(-1, active, true)
      else SwitchOutcome(0, p, true)
  }

  /** The three refusals: no callback, no profile map, unknown name. None
      invokes the callback or changes the active profile. */
  lemma SwitchRefusals(hasCallback: bool, profiles: Option<seq<CardProfile>>, active: Option<CardProfile>,
                       name: string, callbackOk: bool)
    ensures !hasCallback || profiles.None? || Lookup(profiles.value, name).None? <==>
      SwitchProfile(hasCallback, profiles, active, name, callbackOk) == SwitchOutcome(-1, active, false)
  {
  }

  /** Success means the named profile is active afterwards, whatever was active
      before; failure means the callback refused or the request was refused. */
  lemma SwitchSucceedsExactly(hasCallback: bool, profiles: Option<seq<CardProfile>>, active: Option<CardProfile>,
                              name: string, callbackOk: bool)
    ensures var o := SwitchProfile(hasCallback, profiles, active, name, callbackOk);
      o.code == 0 <==> hasCallback && profiles.Some? && Lookup(profiles.value, name).Some?
                       && (active == Lookup(profiles.value, name) || callbackOk)
    ensures var o := SwitchProfile(hasCallback, profiles, active, name, callbackOk);
      o.code == 0 ==> o.active.Some? && o.active.value.name == name
  {
  }

  /** Asking again for the profile just switched to returns 0 without
      invoking the callback, whatever it would answer. */
  lemma SwitchIdempotent(profiles: Option<seq<CardProfile>>, active: Option<CardProfile>,
                         name: string, ok1: bool, ok2: bool)
    requires SwitchProfile(true, profiles, active, name, ok1).code == 0
    ensures var o := SwitchProfile(true, profiles, active, name, ok1);
      SwitchProfile(true, profiles, o.active, name, ok2) == SwitchOutcome(0, o.active, false)
  {
  }

  /** pa_card_new_data: the name, the requested profile and the profile map a
      card is created from. */
  class CardNewData {
    var name: Option<string>
    var activeProfile: Option<string>
    var profiles: Option<seq<CardProfile>>

    /** pa_card_new_data_init: everything NULL. */
    constructor ()
      ensures name.None? && activeProfile.None? && profiles.None?
    {
      name := None;
      activeProfile := None;
      profiles := None;
    }

    /** pa_card_new_data_set_name: the previous name is replaced, so the last
        write wins. */
    method SetName(n: Option<string>)
      modifies this
      ensures name == n
      ensures activeProfile == old(activeProfile) && profiles == old(profiles)
    {
      name := n;
    }

    /** pa_card_new_data_set_profile: the previous request is replaced. */
    method SetProfile(p: Option<string>)
      modifies this
      ensures activeProfile == p
      ensures name == old(name) && profiles == old(profiles)
    {
      activeProfile := p;
    }
  }

  /** pa_card: its name, its profile map, the active profile, whether the
      implementing module installed a set_profile callback, and how many
      change notifications it posted. */
  class Card {
    var name: string
    var profiles: Option<seq<CardProfile>>
    var activeProfile: Option<CardProfile>
    var hasCallback: bool
    var changesPosted: nat

    /** The active profile is an entry of the map, and there is one whenever
        the map has entries. */
    ghost predicate Valid()
      reads this
    {
      (profiles.Some? ==> UniqueNames(profiles.value))
      && (activeProfile.Some? ==> profiles.Some? && activeProfile.value in profiles.value)
      && (activeProfile.None? ==> profiles.None? || profiles.value == [])
    }

    /** pa_card_new: takes the name and steals the profile map from `data`,
        chooses the active profile; no callback is installed yet. */
    constructor (data: CardNewData)
      requires data.name.Some?
      requires data.profiles.Some? ==> UniqueNames(data.profiles.value)
      modifies data
      ensures Valid()
      ensures name == old(data.name.value) && profiles == old(data.profiles)
      ensures activeProfile == ActiveChoice(old(data.profiles), old(data.activeProfile))
      ensures !hasCallback && changesPosted == 0
      ensures data.profiles.None? && data.name == old(data.name) && data.activeProfile == old(data.activeProfile)
    {
      var ps := data.profiles;
      var chosen := ChooseActiveProfile(ps, data.activeProfile);
      name := data.name.value;
      profiles := ps;
      activeProfile := chosen;
      hasCallback := false;
      changesPosted := 0;
      new;
      data.profiles := None;
    }

    /** The implementing module installs its set_profile callback. */
    method InstallCallback()
      modifies this
      ensures hasCallback
      ensures name == old(name) && profiles == old(profiles) && activeProfile == old(activeProfile)
      ensures changesPosted == old(changesPosted)
    {
      hasCallback := true;
    }

    /** pa_card_set_profile. A change is posted only when the active profile
        actually changes. */
    method SetProfile(profileName: string, callbackOk: bool) returns (r: int)
      requires Valid()
      modifies this
      ensures Valid()
      ensures var o := SwitchProfile(old(hasCallback), old(profiles), old(activeProfile), profileName, callbackOk);
        r == o.code && activeProfile == o.active
        && changesPosted == old(changesPosted) + (if o.active != old(activeProfile) then 1 else 0)
      ensures name == old(name) && profiles == old(profiles) && hasCallback == old(hasCallback)
    {
      if !hasCallback {
        return -1;
      }
      if profiles.None? {
        return -1;
      }
      var profile := Lookup(profiles.value, profileName);
      if profile.None? {
        return -1;
      }
      if activeProfile == profile {
        return 0;
      }
      if !callbackOk {
        return -1;
      }
      changesPosted := changesPosted + 1;
      activeProfile := profile;
      return 0;
    }
  }
}
