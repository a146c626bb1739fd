/**
 Whether a stored chain may go on under a new configuration of fork blocks, and
 if not, how far it has to be rewound.
 */
module ChainConfig {
  import opened Options

  type Fork = Option<int>

  datatype Config = Config(chainId: Fork, homestead: Fork, dao: Fork, daoSupport: bool, eip150: Fork, eip155: Fork,
                           eip158: Fork, byzantium: Fork)

  datatype CompatError = CompatError(stored: Fork, wanted: Fork, rewindTo: nat)

  predicate IsForked(s: Fork, head: int) {
    s.Some? && s.value <= head
  }

  predicate ForkIncompatible(s1: Fork, s2: Fork, head: int) {
    (IsForked(s1, head) || IsForked(s2, head)) && s1 != s2
  }

  /** The block before the earlier of the two, or 0. */
  function NewCompatError(stored: Fork, wanted: Fork): CompatError {
    var rew := if stored.None? then wanted else if wanted.None? || stored.value < wanted.value then stored else wanted;
    CompatError(stored, wanted, if rew.Some? && rew.value > 0 then rew.value - 1 else 0)
  }

  /** The first conflict the two configurations have on a chain of this height. */
  function CheckAt(c: Config, n: Config, head: int): Option<CompatError> {
    if ForkIncompatible(c.homestead, n.homestead, head) then Some(NewCompatError(c.homestead, n.homestead))
    else if ForkIncompatible(c.dao, n.dao, head) then Some(NewCompatError(c.dao, n.dao))
    else if IsForked(c.dao, head) && c.daoSupport != n.daoSupport then Some(NewCompatError(c.dao, n.dao))
    else if ForkIncompatible(c.eip150, n.eip150, head) then Some(NewCompatError(c.eip150, n.eip150))
    else if ForkIncompatible(c.eip155, n.eip155, head) then Some(NewCompatError(c.eip155, n.eip155))
    else if ForkIncompatible(c.eip158, n.eip158, head) then Some(NewCompatError(c.eip158, n.eip158))
    else if IsForked(c.eip158, head) && c.chainId != n.chainId then Some(NewCompatError(c.eip158, n.eip158))
    else if ForkIncompatible(c.byzantium, n.byzantium, head) then Some(NewCompatError(c.byzantium, n.byzantium))
    else None
  }

  // ---------------------------------------------------------------------------
  // What compatibility means: the past up to the height is the same under both
  // ---------------------------------------------------------------------------

  ghost predicate SameFork(s1: Fork, s2: Fork, block: int) {
    IsForked(s1, block) <==> IsForked(s2, block)
  }

  /** A block is subject to the same rules under both configurations. */
  ghost predicate SameRules(c: Config, n: Config, block: int) {
    && SameFork(c.homestead, n.homestead, block) && SameFork(c.dao, n.dao, block)
    && SameFork(c.eip150, n.eip150, block) && SameFork(c.eip155, n.eip155, block)
    && SameFork(c.eip158, n.eip158, block) && SameFork(c.byzantium, n.byzantium, block)
    && (IsForked(c.dao, block) ==> c.daoSupport == n.daoSupport)
    && (IsForked(c.eip158, block) ==> c.chainId == n.chainId)
  }

  ghost predicate SamePast(c: Config, n: Config, height: int) {
    forall block {:trigger SameRules(c, n, block)} :: block <= height ==> SameRules(c, n, block)
  }

  lemma ForkCompatible(s1: Fork, s2: Fork, head: int)
    ensures !ForkIncompatible(s1, s2, head) <==> forall b {:trigger SameFork(s1, s2, b)} :: b <= head ==>
              SameFork(s1, s2, b)
  {
    if ForkIncompatible(s1, s2, head) {
      var at := if s1.None? then s2.value else if s2.None? || s1.value < s2.value then s1.value else s2.value;
      assert !SameFork(s1, s2, at);
    } else {
      forall b | b <= head ensures SameFork(s1, s2, b) {
      }
    }
  }

  /** No conflict at a height exactly if all blocks up to it have the same rules. */
  lemma CompatibleIsSamePast(c: Config, n: Config, height: int)
    ensures CheckAt(c, n, height) == None <==> SamePast(c, n, height)
  {
    ForkCompatible(c.homestead, n.homestead, height);
    ForkCompatible(c.dao, n.dao, height);
    ForkCompatible(c.eip150, n.eip150, height);
    ForkCompatible(c.eip155, n.eip155, height);
    ForkCompatible(c.eip158, n.eip158, height);
    ForkCompatible(c.byzantium, n.byzantium, height);
    if SamePast(c, n, height) {
      forall b | b <= height
        ensures SameFork(c.homestead, n.homestead, b) && SameFork(c.dao, n.dao, b) && SameFork(c.eip150, n.eip150, b)
        ensures SameFork(c.eip155, n.eip155, b) && SameFork(c.eip158, n.eip158, b) &&
                  SameFork(c.byzantium, n.byzantium, b)
      {
        assert SameRules(c, n, b);
      }
      assert SameRules(c, n, height);
    }
  }

  datatype Rules = Rules(chainId: int, isHomestead: bool, isEIP150: bool, isEIP155: bool, isEIP158: bool,
                         isByzantium: bool)

  function RulesAt(c: Config, num: int): Rules {
    Rules(if c.chainId.Some? then c.chainId.value else 0, IsForked(c.homestead, num), IsForked(c.eip150, num),
          IsForked(c.eip155, num), IsForked(c.eip158, num), IsForked(c.byzantium, num))
  }

  /** Compatible at a height, the rules of every block up to it agree, but for a chain identifier no fork uses yet. */
  lemma CompatibleRules(c: Config, n: Config, height: int, block: int)
    requires CheckAt(c, n, height) == None && block <= height
    ensures RulesAt(c, block) == RulesAt(n, block).(chainId := RulesAt(c, block).chainId)
    ensures RulesAt(c, block).isEIP158 ==> RulesAt(c, block) == RulesAt(n, block)
  {
    CompatibleIsSamePast(c, n, height);
    assert SameRules(c, n, block);
  }

  /** Which configuration is the stored one does not matter for compatibility. */
  lemma CompatibleIsSymmetric(c: Config, n: Config, height: int)
    ensures CheckAt(c, n, height) == None <==> CheckAt(n, c, height) == None
  {
  }

  /** A conflict points right below a height with a conflict, and lower than the one checked unless that was 0. */
  lemma ConflictBelow(c: Config, n: Config, head: nat)
    requires CheckAt(c, n, head).Some?
    ensures var r := CheckAt(c, n, head).value.rewindTo;
            && !SamePast(c, n, head) && !SamePast(c, n, r + 1) && (r < head || r == head == 0)
  {
    var r := CheckAt(c, n, head).value.rewindTo;
    assert CheckAt(c, n, r + 1).Some?;
    CompatibleIsSamePast(c, n, head);
    CompatibleIsSamePast(c, n, r + 1);
  }

  /** `r` is the greatest height without a conflict, or 0 if there is one from the start. */
  ghost predicate RightRewind(c: Config, n: Config, r: nat, height: nat) {
    && r <= height && (r < height ==> !SamePast(c, n, r + 1)) && (SamePast(c, n, r) || r == 0)
  }

  /** Looks for the lowest conflict by checking again at the height the last one suggests. */
  method CheckCompatible(c: Config, n: Config, height: nat) returns (lasterr: Option<CompatError>)
    ensures lasterr == None <==> SamePast(c, n, height)
    ensures lasterr.Some? ==> RightRewind(c, n, lasterr.value.rewindTo, height)
  {
    lasterr := None;
    var bhead: nat := height;
    while true
      invariant if lasterr == None then bhead == height
                else bhead == lasterr.value.rewindTo <= height && !SamePast(c, n, bhead + 1) && !SamePast(c, n, height)
      decreases bhead, lasterr == None
    {
      var err := CheckAt(c, n, bhead);
      if err == None {
        CompatibleIsSamePast(c, n, bhead);
        break;
      }
      ConflictBelow(c, n, bhead);
      if lasterr.Some? && err.value.rewindTo == lasterr.value.rewindTo {
        break;
      }
      lasterr := err;
      bhead := err.value.rewindTo;
    }
  }
}
