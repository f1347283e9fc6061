/** The game's reference data and numeric limits. Their concrete values are
    not part of this model, so they are gathered in one configuration record
    and every theorem holds for any configuration meeting `ValidConfig`. */
module Constants {
  import opened Types

  /** One line of the default rolodex: an archetype and how many copies. */
  datatype RolodexEntry = RolodexEntry(guestType: GuestType, quantity: int)

  /** A scenario names the archetypes that count as stars in it. */
  datatype Scenario = Scenario(starTypes: seq<GuestType>)

  datatype Config = Config(
    definitions: GuestType -> GuestDefinition,
    defaultRolodex: seq<RolodexEntry>,
    scenarios: seq<Scenario>,
    initialHouseSize: int,
    maxPartiesPerScenario: int,
    starsRequired: int,
    troubleLimit: int,
    initialExpansionCost: int,
    initialPopularityCap: int,
    initialCashCap: int)

  /** What the game relies on of its constants: a non-negative house size and
      caps, a positive trouble limit, and at least one scenario. */
  predicate ValidConfig(cfg: Config) {
    && 0 <= cfg.initialHouseSize
    && 0 < cfg.troubleLimit
    && 0 <= cfg.initialPopularityCap
    && 0 <= cfg.initialCashCap
    && 0 < |cfg.scenarios|
  }
}
