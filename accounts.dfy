/**
 * The account records of the authentication app: a `User` identified by
 * email, whose username is generated on save, a `Profile` holding the
 * avatar URL, and the display-name helpers built on them.
 */
module Accounts {
  import opened Text

  /** The canonical text of a UUID: 36 characters, hexadecimal digits and hyphens. */
  predicate UuidText(id: string) {
    |id| == 36 && forall i :: 0 <= i < |id| ==> IsHexOrHyphen(id[i])
  }

  predicate IsHexOrHyphen(c: char) {
    ('0' <= c <= '9') || ('a' <= c <= 'f') || c == '-'
  }

  /**
   * The username `User.save()` makes up: the part of the email before the
   * first '@', an underscore, and the first eight characters of the id.
   */
  function GeneratedUsername(email: string, id: string): (r: string)
    ensures var local := Before(email, '@');
      && |r| == |local| + 1 + |Take(id, 8)|
      && r[..|local|] == local && r[|local|] == '_' && r[|local| + 1..] == Take(id, 8)
  {
    Before(email, '@') + "_" + Take(id, 8)
  }

  /** A generated username is never empty and, for a UUID id, never contains '@'. */
  lemma {:induction false} GeneratedUsernameShape(email: string, id: string)
    requires UuidText(id)
    ensures var r := GeneratedUsername(email, id);
      r != [] && '@' !in r && |r| == |Before(email, '@')| + 9
  {
    var r := GeneratedUsername(email, id);
    var local := Before(email, '@');
    forall i | 0 <= i < |r| ensures r[i] != '@' {
      if i < |local| {
        assert r[i] == r[..|local|][i];
      } else if |local| < i {
        assert r[i] == r[|local| + 1..][i - |local| - 1] == id[i - |local| - 1];
        assert IsHexOrHyphen(id[i - |local| - 1]);
      }
    }
  }

  /** Two users with the same local part and different first id characters get different usernames. */
  lemma GeneratedUsernamesDiffer(email1: string, id1: string, email2: string, id2: string)
    requires Before(email1, '@') == Before(email2, '@')
    requires Take(id1, 8) != Take(id2, 8)
    ensures GeneratedUsername(email1, id1) != GeneratedUsername(email2, id2)
  {
    var local := Before(email1, '@');
    assert GeneratedUsername(email1, id1)[|local| + 1..] == Take(id1, 8);
    assert GeneratedUsername(email2, id2)[|local| + 1..] == Take(id2, 8);
  }

  /**
   * `get_full_name()`: first and last name joined by a space and stripped,
   * or the email when that leaves nothing, that is, when both names are blank.
   */
  function FullName(first: string, last: string, email: string): (r: string)
    ensures Blank(first) && Blank(last) ==> r == email
    ensures !(Blank(first) && Blank(last)) ==> r == Trim(first + " " + last) && r != [] && Stripped(r)
  {
    JoinedBlank(first, last);
    var full := Trim(first + " " + last);
    if full == [] then email else full
  }

  /** For the stripped, non-empty names a profile update stores, the full name is exactly "first last". */
  lemma FullNameOfStoredNames(first: string, last: string, email: string)
    requires first != [] && last != [] && Stripped(first) && Stripped(last)
    ensures FullName(first, last, email) == first + " " + last
  {
    var s := first + " " + last;
    assert s[0] == first[0] && s[|s| - 1] == last[|last| - 1];
    TrimStripped(s);
    assert !Blank(first) by { assert !IsSpace(first[0]); }
  }

  /** `get_short_name()`: the first name, or the email's text before its first '@'. */
  function ShortName(first: string, email: string): (r: string)
    ensures first != [] ==> r == first
    ensures first == [] ==> r <= email && '@' !in r && (|r| < |email| ==> email[|r|] == '@')
  {
    if first != [] then first else Before(email, '@')
  }

  /** A user with a stored (stripped, non-empty) first name has a full name that starts with the short name. */
  lemma ShortNameStartsFullName(first: string, last: string, email: string)
    requires first != [] && last != [] && Stripped(first) && Stripped(last)
    ensures ShortName(first, email) <= FullName(first, last, email)
  {
    FullNameOfStoredNames(first, last, email);
  }

  /** `Profile.get_avatar_display()`: the avatar URL, or the icon class "fa-user" when there is none. */
  function AvatarDisplay(avatar: string): (r: string)
    ensures r != []
    ensures avatar != [] ==> r == avatar
    ensures avatar == [] ==> r == "fa-user"
  {
    if avatar != [] then avatar else "fa-user"
  }

  /** The `User` row: `id` is the text of its UUID key. */
  class User {
    const id: string
    var email: string
    var username: string
    var firstName: string
    var lastName: string

    /** A user as created by sign-up, before the first save: no username yet. */
    constructor (id: string, email: string, firstName: string, lastName: string)
      ensures this.id == id && this.email == email && username == []
      ensures this.firstName == firstName && this.lastName == lastName
    {
      this.id := id;
      this.email := email;
      username := [];
      this.firstName := firstName;
      this.lastName := lastName;
    }

    /** `User.save()`: an empty username is generated from the email and the id; a set one is kept. */
    method Save()
      modifies this
      ensures username == if old(username) == [] then GeneratedUsername(email, id) else old(username)
      ensures email == old(email) && firstName == old(firstName) && lastName == old(lastName)
      ensures username != []
    {
      if username == [] {
        username := Before(email, '@') + "_" + Take(id, 8);
      }
    }
  }

  /** The `Profile` row of a user. */
  class Profile {
    var avatar: string

    constructor ()
      ensures avatar == []
    {
      avatar := [];
    }
  }

  /** Saving twice generates nothing new: the second save keeps the username of the first. */
  method SaveTwice(u: User)
    modifies u
    ensures u.username == if old(u.username) == [] then GeneratedUsername(u.email, u.id) else old(u.username)
    ensures u.email == old(u.email)
  {
    u.Save();
    ghost var first := u.username;
    u.Save();
    assert u.username == first;
  }
}
