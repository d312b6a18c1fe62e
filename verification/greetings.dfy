/** The two greeting endpoints of the game element. Both read the current
    user, which here is a parameter instead of a service lookup. */
module Greetings {
  import opened Results

  /** The access level of a user account. */
  datatype Level = UNPRIVILEGED | USER | SUPERUSER

  /** The fields of the current user that the endpoints can see. */
  datatype User = User(id: string, name: string, email: string, level: Level)

  const Hello: string := "Hello, "
  const Guest: string := "Guest"
  const Sorry: string := "Sorry. You're not logged in. :("

  /** `"Hello, " + x + "!"`. */
  function Greet(x: string): string {
    Hello + x + "!"
  }

  /** The inverse of `Greet`: who a reply greets, if it is a greeting at all. */
  function Addressee(reply: string): (x: Option<string>)
    ensures x.Some? ==> Greet(x.value) == reply
  {
    if |Hello| + 1 <= |reply| && reply[..|Hello|] == Hello && reply[|reply| - 1] == '!'
    then Some(reply[|Hello|..|reply| - 1])
    else None
  }

  /** A greeting names exactly the one it greets. */
  lemma AddresseeOfGreet(x: string)
    ensures Addressee(Greet(x)) == Some(x)
  {
  }

  /** `reply` greets `x` exactly when it is `Greet(x)`. */
  lemma GreetIff(reply: string, x: string)
    ensures reply == Greet(x) <==> Addressee(reply) == Some(x)
  {
  }

  /** `GreetingServiceImpl.getGreeting`, as written: the flag named
      `isLoggedIn` holds for UNPRIVILEGED users, so they are greeted by name
      and every other user is greeted as Guest. */
  function GetGreeting(u: User): (greeting: string)
    ensures Addressee(greeting) == Some(if u.level == UNPRIVILEGED then u.name else Guest)
  {
    var isLoggedIn := u.level == UNPRIVILEGED;
    var name := if isLoggedIn then u.name else Guest;
    AddresseeOfGreet(name);
    Greet(name)
  }

  /** `getGreeting` with the flag meaning what its name says: a user above
      UNPRIVILEGED is logged in and greeted by name, anyone else as Guest. */
  function GetGreetingIntended(u: User): (greeting: string)
    ensures Addressee(greeting) == Some(if u.level != UNPRIVILEGED then u.name else Guest)
  {
    var isLoggedIn := u.level != UNPRIVILEGED;
    var name := if isLoggedIn then u.name else Guest;
    AddresseeOfGreet(name);
    Greet(name)
  }

  /** `HelloWorld.sayHello`: UNPRIVILEGED users are told they are not logged
      in; everyone else is greeted by name. */
  function SayHello(u: User): (reply: string)
    ensures u.level == UNPRIVILEGED ==> reply == Sorry
    ensures u.level != UNPRIVILEGED ==> Addressee(reply) == Some(u.name)
  {
    if u.level == UNPRIVILEGED then Sorry
    else
      AddresseeOfGreet(u.name);
      Greet(u.name)
  }

  /** The greeting always has the shape `"Hello, " + x + "!"`: exactly
      `"Hello, Guest!"` above UNPRIVILEGED, and the user's own name at
      UNPRIVILEGED. */
  lemma GreetingShape(u: User)
    ensures u.level == UNPRIVILEGED ==> GetGreeting(u) == Greet(u.name)
    ensures u.level != UNPRIVILEGED ==> GetGreeting(u) == "Hello, Guest!"
  {
  }

  /** The two branches of `sayHello` never collide: a reply starts with
      `"Hello, "` if and only if the user is not UNPRIVILEGED. */
  lemma SayHelloBranchesDistinct(u: User)
    ensures Hello <= SayHello(u) <==> u.level != UNPRIVILEGED
    ensures SayHello(u) == Sorry <==> u.level == UNPRIVILEGED
  {
    assert Sorry[0] != Hello[0];
    if u.level != UNPRIVILEGED {
      GreetIff(SayHello(u), u.name);
      assert SayHello(u) != Sorry by { assert SayHello(u)[0] == 'H'; }
    }
  }

  /** Both replies depend on nothing but the user's level and name. */
  lemma OnlyLevelAndNameMatter(u: User, v: User)
    requires u.level == v.level && u.name == v.name
    ensures GetGreeting(u) == GetGreeting(v)
    ensures SayHello(u) == SayHello(v)
  {
  }

  /** For one and the same user the two endpoints answer in opposite ways:
      above UNPRIVILEGED, `sayHello` names the user while `getGreeting` says
      Guest; at UNPRIVILEGED, `sayHello` refuses while `getGreeting` names the
      user. */
  lemma EndpointsDisagree(u: User)
    ensures u.level != UNPRIVILEGED ==> SayHello(u) == Greet(u.name) && GetGreeting(u) == Greet(Guest)
    ensures u.level == UNPRIVILEGED ==> SayHello(u) == Sorry && GetGreeting(u) == Greet(u.name)
  {
  }

  /** The input that shows the inverted flag: a logged-in USER named alice is
      greeted as Guest. */
  lemma LoggedInUserGreetedAsGuest()
    ensures GetGreeting(User("1", "alice", "alice@mystudio.com", USER)) == "Hello, Guest!"
    ensures GetGreeting(User("1", "alice", "alice@mystudio.com", USER)) != Greet("alice")
  {
  }

  /** The corrected greeting names every logged-in user, agrees with
      `sayHello` for them, and greets anyone UNPRIVILEGED as Guest. */
  lemma IntendedGreetingAgreesWithSayHello(u: User)
    ensures u.level != UNPRIVILEGED ==> GetGreetingIntended(u) == SayHello(u) == Greet(u.name)
    ensures u.level == UNPRIVILEGED ==> GetGreetingIntended(u) == Greet(Guest)
  {
  }
}
