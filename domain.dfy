/** The rows of the recipe store: recipes and tags, each owned by one user. */
module Domain {

  datatype Option<T> = None | Some(value: T) {
    function GetOr(default: T): T
    {
      match this
      case Some(v) => v
      case None => default
    }
  }

  /** A user is known only by an opaque identity. */
  type UserId = nat
  type RecipeId = nat
  type TagId = nat

  /** A recipe's price: a decimal that is only stored and compared, kept by its text. */
  type Decimal = string

  /** One row of the recipe table, with its many-to-many set of tag ids. */
  datatype Recipe = Recipe(
    owner: UserId,
    title: string,
    timeMinutes: int,
    price: Decimal,
    link: string,
    description: string,
    tags: set<TagId>)

  /** One row of the tag table. */
  datatype Tag = Tag(owner: UserId, name: string)
}
