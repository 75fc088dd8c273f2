/** The records the dashboard stores and shows: users with one of five roles,
    donations in rupees or dollars, and projects. Fields that no modelled
    operation reads (the donors' KYC details, project initiatives) are
    omitted. */
module Types {
  import opened JsBuiltins

  datatype Role = Admin | Manager | Volunteer | Intern | Donor

  /** The text of a role, which is also its key in per-role tables. */
  function RoleName(r: Role): string
  {
    match r
    case Admin => "Admin"
    case Manager => "Manager"
    case Volunteer => "Volunteer"
    case Intern => "Intern"
    case Donor => "Donor"
  }

  datatype UserStatus = Active | Inactive

  /** A user account. `status` is optional because records written without it
      (the seed users among them) carry none. */
  datatype User = User(
    id: string,
    name: string,
    email: string,
    avatarUrl: string,
    role: Role,
    status: Option<UserStatus>,
    password: Option<string>)

  datatype Currency = INR | USD

  /** A donation. `project` names its project by free text, not by id. */
  datatype Donation = Donation(
    id: string,
    donorName: string,
    donorEmail: string,
    amount: int,
    currency: Currency,
    date: string,
    project: string,
    receiptUrl: Option<string>)

  datatype ProjectStatus = Ongoing | Completed | Planning

  datatype Project = Project(
    id: string,
    name: string,
    description: string,
    imageUrl: string,
    status: ProjectStatus,
    progress: Option<int>,
    budget: Option<int>)

  /** The fixed rate at which dollar amounts are counted in rupees. */
  const UsdToInr: int := 80
}
