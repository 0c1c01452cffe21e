/** The records of frontend/types/api.ts that the session logic handles. */
module ApiTypes {
  import opened Wrappers

  datatype Role = Customer | Admin | SuperAdmin

  /** `User` */
  datatype User = User(
    id: string,
    email: string,
    name: string,
    role: Role,
    language: string,
    emailVerifiedAt: Option<string>,
    createdAt: string,
    updatedAt: string)

  /** Validation messages keyed by field name: `Record<string, string[]>`. */
  type FieldErrors = map<string, seq<string>>

  /** `ApiError`: the one shape every failed call is reported in. */
  datatype ApiError = ApiError(message: string, errors: Option<FieldErrors>)

  /** The `data` of a successful login or registration. */
  datatype AuthPayload = AuthPayload(user: User, token: string)
}
