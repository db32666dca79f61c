/** The user record that the form edits and the store keeps. */
module Users {

  datatype Address = Address(line1: string, line2: string, state: string, city: string, pin: string)

  datatype User = User(name: string, email: string, linkedin: string, gender: string, address: Address)

  /** The form's initial draft: every field empty. */
  const EmptyUser: User := User("", "", "", "", Address("", "", "", "", ""))

  /** The leaf fields of a record, the top-level ones and those of its address. */
  datatype Field = Name | Email | LinkedIn | Gender | Line1 | Line2 | State | City | Pin

  function Get(u: User, f: Field): string {
    match f
    case Name => u.name
    case Email => u.email
    case LinkedIn => u.linkedin
    case Gender => u.gender
    case Line1 => u.address.line1
    case Line2 => u.address.line2
    case State => u.address.state
    case City => u.address.city
    case Pin => u.address.pin
  }

  /** The record with one field replaced: `{ ...u, [f]: v }`, or the same inside `address`. */
  function Set(u: User, f: Field, v: string): (r: User)
    ensures Get(r, f) == v
    ensures forall g :: g != f ==> Get(r, g) == Get(u, g)
  {
    match f
    case Name => u.(name := v)
    case Email => u.(email := v)
    case LinkedIn => u.(linkedin := v)
    case Gender => u.(gender := v)
    case Line1 => u.(address := u.address.(line1 := v))
    case Line2 => u.(address := u.address.(line2 := v))
    case State => u.(address := u.address.(state := v))
    case City => u.(address := u.address.(city := v))
    case Pin => u.(address := u.address.(pin := v))
  }

  /** The fields determine the record, so "every other field is unchanged" leaves nothing else. */
  lemma FieldsDetermineUser(u: User, v: User)
    requires forall f :: Get(u, f) == Get(v, f)
    ensures u == v
  {
    assert Get(u, Name) == Get(v, Name) && Get(u, Email) == Get(v, Email);
    assert Get(u, LinkedIn) == Get(v, LinkedIn) && Get(u, Gender) == Get(v, Gender);
    assert Get(u, Line1) == Get(v, Line1) && Get(u, Line2) == Get(v, Line2);
    assert Get(u, State) == Get(v, State) && Get(u, City) == Get(v, City) && Get(u, Pin) == Get(v, Pin);
  }
}
