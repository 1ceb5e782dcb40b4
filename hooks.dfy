/** The host hooks that drive the HUD when tokens are controlled and actors change. */
module Hooks {
  import opened Host
  import opened Persistence
  import opened Hud

  /**
   * `controlToken`: with a HUD that is enabled, controlling a token loads the
   * slots and opens the HUD; releasing the last controlled token closes it
   * (the slots stay as they were); releasing one of several changes nothing.
   */
  method ControlToken(hud: CombatHud?, enabled: bool, controlled: bool, tokens: seq<Token>,
                      flags: FlagStore, resolve: Resolver)
    modifies hud
    ensures hud != null && (!enabled || (!controlled && |tokens| > 0)) ==>
              hud.hotbarSlots == old(hud.hotbarSlots) && hud.rendered == old(hud.rendered)
    ensures hud != null && enabled && controlled ==>
              hud.hotbarSlots == Populate(CurrentActor(tokens), flags, resolve) && hud.rendered
    ensures hud != null && enabled && !controlled && |tokens| == 0 ==>
              hud.hotbarSlots == old(hud.hotbarSlots) && !hud.rendered
  {
    if hud == null || !enabled {
      return;
    }
    if controlled {
      hud.LoadHotbarSlots(tokens, flags, resolve);
      hud.Render(true);
    } else if |tokens| == 0 {
      hud.Close();
    }
  }

  /**
   * `updateActor`: refreshes an open HUD when the updated actor is the HUD's
   * actor, and does nothing otherwise; the slots are never touched.
   */
  method UpdateActor(hud: CombatHud?, tokens: seq<Token>, updated: Actor) returns (refreshed: bool)
    modifies hud
    ensures refreshed <==> hud != null && CurrentActor(tokens).Some? && CurrentActor(tokens).value.id == updated.id
    ensures hud != null ==> hud.hotbarSlots == old(hud.hotbarSlots) && hud.rendered == old(hud.rendered)
  {
    var actor := CurrentActor(tokens);
    refreshed := hud != null && actor.Some? && actor.value.id == updated.id;
    if refreshed {
      hud.Render(false);
    }
  }
}
