/** The constant role table (src/roles/user-role.model.ts): every user role,
    its display name, its string value and its weight. The weights are meant
    to order the roles by privilege. The authentication gate does not read
    this table: it compares a route's minimum with the weight stored on the
    user's role row (see `Auth.GateAdmitsHigherRoles`). */
module Roles {

  datatype UserRole = Client | Restaurateur | DeliveryPerson | Administrator

  datatype UserRoleInfo = UserRoleInfo(name: string, role: UserRole, weight: int)

  /** The string each enumeration member stands for. */
  function RoleValue(r: UserRole): string
  {
    match r
    case Client => "client"
    case Restaurateur => "restaurateur"
    case DeliveryPerson => "livreur"
    case Administrator => "administrateur"
  }

  /** `UserRoleInfoMap[r]`: the entry of the table under key `r`. */
  function UserRoleInfoMap(r: UserRole): (info: UserRoleInfo)
    ensures info.role == r
    ensures info.weight >= 100
  {
    match r
    case Client => UserRoleInfo("Client", Client, 100)
    case Restaurateur => UserRoleInfo("Restaurateur", Restaurateur, 200)
    case DeliveryPerson => UserRoleInfo("Livreur", DeliveryPerson, 300)
    case Administrator => UserRoleInfo("Administrateur", Administrator, 1000)
  }

  function Weight(r: UserRole): int
  {
    UserRoleInfoMap(r).weight
  }

  /** Position of a role in the privilege order the weights are meant to
      express, lowest first. */
  function Rank(r: UserRole): (k: nat)
    ensures k < 4
  {
    match r
    case Client => 0
    case Restaurateur => 1
    case DeliveryPerson => 2
    case Administrator => 3
  }

  /** The weights agree with the privilege order in both directions:
      CLIENT < RESTAURATEUR < DELIVERY_PERSON < ADMINISTRATOR. */
  lemma WeightsFollowRank(a: UserRole, b: UserRole)
    ensures Weight(a) < Weight(b) <==> Rank(a) < Rank(b)
    ensures Weight(a) == Weight(b) <==> a == b
  {
  }

  /** The four weights as written in the table. */
  lemma TableWeights()
    ensures Weight(Client) == 100
    ensures Weight(Restaurateur) == 200
    ensures Weight(DeliveryPerson) == 300
    ensures Weight(Administrator) == 1000
  {
  }

  /** Distinct roles have distinct string values. */
  lemma RoleValueInjective(a: UserRole, b: UserRole)
    ensures RoleValue(a) == RoleValue(b) <==> a == b
  {
  }
}
