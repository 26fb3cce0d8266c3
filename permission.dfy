/** The capability bit-set of the domain package: a 64-bit word in which
    each named capability owns one bit, assigned in declaration order. */
module Permissions {

  type Permission = bv64

  /** The number of declared capabilities. */
  const Count: bv8 := 16

  /** The bit of the k-th declared capability (k counted from 0), `1 << k`.
      Each constant below takes k from its position in the declaration, as
      `iota` does. Positions are 8-bit words so that the shift stays within
      bit-vector arithmetic. */
  function Flag(k: bv8): Permission
    requires k < Count
  {
    1 << k
  }

  const Admin: Permission := Flag(0)

  const CreateUser: Permission := Flag(1)
  const ReadUser: Permission := Flag(2)
  const EditUser: Permission := Flag(3)

  const CreateAct: Permission := Flag(4)
  const ReadAct: Permission := Flag(5)
  const EditAct: Permission := Flag(6)

  const AddCity: Permission := Flag(7)
  const ReadCity: Permission := Flag(8)
  const EditCity: Permission := Flag(9)

  const AddCompany: Permission := Flag(10)
  const ReadCompany: Permission := Flag(11)
  const EditCompany: Permission := Flag(12)

  const CreateGroup: Permission := Flag(13)
  const ReadGroup: Permission := Flag(14)
  const EditGroup: Permission := Flag(15)

  /** Whether the k-th declared capability is present in `p`. Each test
      below is this question for its own k, which lets one lemma speak about
      all sixteen tests at once. */
  predicate Holds(k: bv8, p: Permission)
    requires k < Count
  {
    p & Flag(k) != 0
  }

  function IsAdmin(p: Permission): (b: bool)
    ensures b == Holds(0, p)
  {
    p & Admin != 0
  }

  // The capability tests. None of them consults the Admin bit.

  function CanCreateUser(p: Permission): (b: bool)
    ensures b == Holds(1, p)
  {
    p & CreateUser != 0
  }

  function CanReadUser(p: Permission): (b: bool)
    ensures b == Holds(2, p)
  {
    p & ReadUser != 0
  }

  function CanEditUser(p: Permission): (b: bool)
    ensures b == Holds(3, p)
  {
    p & EditUser != 0
  }

  function CanCreateAct(p: Permission): (b: bool)
    ensures b == Holds(4, p)
  {
    p & CreateAct != 0
  }

  function CanReadAct(p: Permission): (b: bool)
    ensures b == Holds(5, p)
  {
    p & ReadAct != 0
  }

  function CanEditAct(p: Permission): (b: bool)
    ensures b == Holds(6, p)
  {
    p & EditAct != 0
  }

  function CanAddCity(p: Permission): (b: bool)
    ensures b == Holds(7, p)
  {
    p & AddCity != 0
  }

  function CanReadCity(p: Permission): (b: bool)
    ensures b == Holds(8, p)
  {
    p & ReadCity != 0
  }

  function CanEditCity(p: Permission): (b: bool)
    ensures b == Holds(9, p)
  {
    p & EditCity != 0
  }

  function CanAddCompany(p: Permission): (b: bool)
    ensures b == Holds(10, p)
  {
    p & AddCompany != 0
  }

  function CanReadCompany(p: Permission): (b: bool)
    ensures b == Holds(11, p)
  {
    p & ReadCompany != 0
  }

  function CanEditCompany(p: Permission): (b: bool)
    ensures b == Holds(12, p)
  {
    p & EditCompany != 0
  }

  function CanCreateGroup(p: Permission): (b: bool)
    ensures b == Holds(13, p)
  {
    p & CreateGroup != 0
  }

  function CanReadGroup(p: Permission): (b: bool)
    ensures b == Holds(14, p)
  {
    p & ReadGroup != 0
  }

  function CanEditGroup(p: Permission): (b: bool)
    ensures b == Holds(15, p)
  {
    p & EditGroup != 0
  }

  /** The constants are the powers of two from 1 to 2^15, in declaration
      order. */
  lemma ConstantValues()
    ensures Admin == 0x1 && CreateUser == 0x2 && ReadUser == 0x4 && EditUser == 0x8
    ensures CreateAct == 0x10 && ReadAct == 0x20 && EditAct == 0x40 && AddCity == 0x80
    ensures ReadCity == 0x100 && EditCity == 0x200 && AddCompany == 0x400 && ReadCompany == 0x800
    ensures EditCompany == 0x1000 && CreateGroup == 0x2000 && ReadGroup == 0x4000 && EditGroup == 0x8000
  {
  }

  /** Every capability is a single set bit. */
  lemma FlagIsOneBit(k: bv8)
    requires k < Count
    ensures Flag(k) != 0
    ensures Flag(k) & (Flag(k) - 1) == 0
  {
  }

  /** Distinct capabilities share no bit. */
  lemma FlagsDisjoint(i: bv8, j: bv8)
    requires i < Count && j < Count && i != j
    ensures Flag(i) & Flag(j) == 0
  {
  }

  /** A test depends on its own bit alone: masking everything else away
      does not change the answer ... */
  lemma HoldsOnlyOwnBit(k: bv8, p: Permission)
    requires k < Count
    ensures Holds(k, p) == Holds(k, p & Flag(k))
  {
  }

  /** ... and flipping any other declared bit does not change it either. */
  lemma BitsIndependent(k: bv8, j: bv8, p: Permission)
    requires k < Count && j < Count && k != j
    ensures Holds(k, p ^ Flag(j)) == Holds(k, p)
  {
    FlagsDisjoint(j, k);
    OutsideMaskXor(p, Flag(j), Flag(k));
  }

  /** The capability tests do not short-circuit on Admin: the bare Admin set
      grants no capability ... */
  lemma AdminAloneGrantsNoCapability(k: bv8)
    requires 1 <= k < Count
    ensures !Holds(k, Admin)
  {
    FlagsDisjoint(0, k);
  }

  /** ... setting Admin adds no capability ... */
  lemma SettingAdminKeepsCapabilities(k: bv8, p: Permission)
    requires 1 <= k < Count
    ensures Holds(k, p | Admin) == Holds(k, p)
  {
    FlagsDisjoint(0, k);
    OutsideMaskOr(p, Admin, Flag(k));
  }

  /** ... and clearing Admin removes none. */
  lemma ClearingAdminKeepsCapabilities(k: bv8, p: Permission)
    requires 1 <= k < Count
    ensures Holds(k, p & !Admin) == Holds(k, p)
  {
    FlagsDisjoint(0, k);
    OutsideMaskAndNot(p, Admin, Flag(k));
  }

  /** Adding bits never takes a capability (or Admin) away ... */
  lemma HoldsMonotone(k: bv8, p: Permission, q: Permission)
    requires k < Count
    ensures Holds(k, p) ==> Holds(k, p | q)
  {
  }

  /** ... and a union grants only what one of its parts grants. */
  lemma UnionGrantsOnlyFromParts(k: bv8, p: Permission, q: Permission)
    requires k < Count
    ensures Holds(k, p | q) ==> Holds(k, p) || Holds(k, q)
  {
  }

  /** The empty set is not admin and grants nothing. */
  lemma EmptyGrantsNothing(k: bv8)
    requires k < Count
    ensures !Holds(k, 0)
  {
  }

  // Bit-level helpers: setting, clearing or flipping the bits of `m` leaves
  // the bits under a disjoint mask `f` alone.

  lemma OutsideMaskOr(p: Permission, m: Permission, f: Permission)
    requires m & f == 0
    ensures (p | m) & f == p & f
  {
  }

  lemma OutsideMaskAndNot(p: Permission, m: Permission, f: Permission)
    requires m & f == 0
    ensures (p & !m) & f == p & f
  {
  }

  lemma OutsideMaskXor(p: Permission, m: Permission, f: Permission)
    requires m & f == 0
    ensures (p ^ m) & f == p & f
  {
  }
}
