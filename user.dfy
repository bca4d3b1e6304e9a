/** The records of the user directory: a user and the add-user form's data. */
module UserTypes {

  /** The company a user works for. */
  datatype Company = Company(name: string, catchPhrase: string, bs: string)

  /** A directory entry. JavaScript numbers are modelled as unbounded integers. */
  datatype User = User(
    id: int,
    name: string,
    email: string,
    phone: string,
    website: string,
    company: Company)

  /** The add-user form: five text inputs, the company given by name only. */
  datatype UserFormData = UserFormData(
    name: string,
    email: string,
    phone: string,
    website: string,
    company: string)
}
