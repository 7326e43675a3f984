/** Which of two stored heads wins: the Ferminux authority rule first, total
    difficulty between heads of the same kind, then the lower number, then
    local preference or a coin. */
module ForkChoice {
  import opened Options
  import opened BlockTree

  datatype Config = Config(posaBlock: Option<nat>, maxReorgDepth: int, preserve: Option<Header -> bool>)

  datatype Choice = Decided(reorg: bool) | MissingTd

  predicate IsPosa(cfg: Config, number: nat) {
    cfg.posaBlock.Some? && cfg.posaBlock.value <= number
  }

  function Preserved(cfg: Config, h: Header): bool {
    cfg.preserve.Some? && cfg.preserve.value(h)
  }

  /** `coin` is the random draw below one half. */
  function ReorgNeeded(cfg: Config, localTd: Option<nat>, externTd: Option<nat>,
                       current: Header, header: Header, coin: bool): (c: Choice)
  {
    if localTd.None? || externTd.None? then MissingTd
    else if cfg.posaBlock.Some? && IsPosa(cfg, current.number) != IsPosa(cfg, header.number) then
      Decided(IsPosa(cfg, header.number))
    else if externTd.value > localTd.value then Decided(true)
    else if externTd.value < localTd.value then Decided(false)
    else if header.number < current.number then Decided(true)
    else if header.number > current.number then Decided(false)
    else Decided(!Preserved(cfg, current) && (Preserved(cfg, header) || coin))
  }

  /** The order the fork choice climbs: (authority, total difficulty, -number). */
  datatype Rank = Rank(posa: bool, td: nat, number: nat)

  ghost predicate Below(a: Rank, b: Rank) {
    || (!a.posa && b.posa)
    || (a.posa == b.posa && a.td < b.td)
    || (a.posa == b.posa && a.td == b.td && a.number > b.number)
  }

  ghost predicate AtMost(a: Rank, b: Rank) {
    a == b || Below(a, b)
  }

  ghost function RankOf(cfg: Config, td: nat, h: Header): Rank {
    Rank(IsPosa(cfg, h.number), td, h.number)
  }

  /** The choice is exactly the lexicographic order on ranks; only an exact tie is
      left to preference and coin. So no head ever gives way to a lower rank and a
      strictly higher rank always wins. */
  lemma ChoiceIsRank(cfg: Config, localTd: nat, externTd: nat, current: Header, header: Header, coin: bool)
    ensures var a, b := RankOf(cfg, localTd, current), RankOf(cfg, externTd, header);
            var c := ReorgNeeded(cfg, Some(localTd), Some(externTd), current, header, coin);
            && c.Decided?
            && (Below(a, b) ==> c.reorg)
            && (Below(b, a) ==> !c.reorg)
            && (a == b ==> c.reorg == (!Preserved(cfg, current) && (Preserved(cfg, header) || coin)))
            && (Below(a, b) || Below(b, a) || a == b)
  {
  }

  lemma AtMostTransitive(a: Rank, b: Rank, c: Rank)
    requires AtMost(a, b) && AtMost(b, c)
    ensures AtMost(a, c)
  {
  }
}
