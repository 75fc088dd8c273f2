/** The page header: the role switcher, which offers the five roles and hands
    the chosen one to the session's role switch, and the avatar fallback,
    which shows the user's initials. */
module HeaderView {
  import opened JsBuiltins
  import opened Types
  import opened BrowserStorage
  import opened Auth

  // ---------------------------------------------------------------------------
  // Role switcher

  /** `roles`: the choices of the role switcher, in the order shown. */
  const Roles: seq<Role> := [Admin, Manager, Volunteer, Intern, Donor]

  /** The switcher offers every role, each exactly once. */
  lemma RolesOfferEveryRoleOnce()
    ensures |Roles| == 5
    ensures forall r: Role :: r in Roles
    ensures forall i, j :: 0 <= i < j < |Roles| ==> Roles[i] != Roles[j]
  {
    forall r: Role ensures r in Roles {
      match r
      case Admin => assert Roles[0] == r;
      case Manager => assert Roles[1] == r;
      case Volunteer => assert Roles[2] == r;
      case Intern => assert Roles[3] == r;
      case Donor => assert Roles[4] == r;
    }
  }

  /** `onValueChange`: the role chosen in the switcher goes to the session's
      role switch unchanged. */
  method OnRoleSelected(auth: AuthProvider, choice: nat)
    requires choice < |Roles|
    requires auth.Valid()
    modifies auth, auth.storage
    ensures auth.Valid() && auth.loading == old(auth.loading)
    ensures old(auth.user).None? ==> auth.user == None && auth.storage.entries == old(auth.storage.entries)
    ensures old(auth.user).Some? ==>
      var switched := old(auth.user).value.(role := Roles[choice]);
      && auth.user == Some(switched)
      && auth.storage.entries == old(auth.storage.entries)
           [CurrentUserStorageKey := UserRecord(switched)]
           [UsersStorageKey := UserList(ReplaceById(LoadUsers(old(auth.storage.entries)), switched))]
  {
    auth.SetRole(Roles[choice]);
  }

  // ---------------------------------------------------------------------------
  // Initials

  /** The names `getInitials` returns a value for: no name, the empty name, or
      a name with a character other than whitespace. A name made only of
      whitespace trims to "", whose first piece has no first character, and
      reading one from it throws. */
  predicate InitialsDefined(name: Option<string>)
  {
    name.None? || name.value == [] || Trim(name.value) != []
  }

  /** `getInitials(name)`: "U" for a missing or empty name; otherwise the
      trimmed name is split at single spaces and the result is the first
      characters of the first two pieces, upper-cased, or of the first piece
      alone when there is no second piece or the second is empty. */
  function Initials(name: Option<string>): (r: string)
    requires InitialsDefined(name)
    ensures 1 <= |r| <= 2
    ensures name.None? || name.value == [] ==> r == "U"
    ensures name.Some? && name.value != [] ==>
      LeadingWhitespace(name.value) < |name.value| && r[0] == UpperChar(name.value[LeadingWhitespace(name.value)])
  {
    if name.None? || name.value == [] then "U"
    else
      var trimmed := Trim(name.value);
      assert trimmed[0] != ' ' by {
        assert IsWhitespace(' ');
      }
      var parts := Split(trimmed);
      if |parts| > 1 && parts[1] != [] then ToUpperCase([parts[0][0], parts[1][0]])
      else ToUpperCase([parts[0][0]])
  }

  /** A non-empty name has initials exactly when it has a character other
      than whitespace. */
  lemma InitialsDefinedIff(name: string)
    requires name != []
    ensures InitialsDefined(Some(name)) <==> exists k :: 0 <= k < |name| && !IsWhitespace(name[k])
  {
  }

  /** A word in a name: non-empty and free of whitespace. */
  predicate IsWord(w: string)
  {
    w != [] && forall k :: 0 <= k < |w| ==> !IsWhitespace(w[k])
  }

  /** A name written as words with single spaces between them needs no
      trimming, and splitting it gives back the words. */
  lemma WordsJoinUnpadded(words: seq<string>)
    requires |words| >= 1
    requires forall i {:trigger words[i]} :: 0 <= i < |words| ==> IsWord(words[i])
    ensures Trim(Join(words)) == Join(words)
    ensures Split(Trim(Join(words))) == words
  {
    assert IsWhitespace(' ');
    forall i | 0 <= i < |words| ensures ' ' !in words[i] {
      assert forall k :: 0 <= k < |words[i]| ==> words[i][k] != ' ';
    }
    JoinEnds(words);
    var last := words[|words| - 1];
    assert !IsWhitespace(last[|last| - 1]);
    TrimKeepsUnpaddedString(Join(words));
    SplitJoin(words);
  }

  /** Initials read off the pieces of a name that needs no trimming. */
  lemma InitialsFromPieces(name: string, parts: seq<string>)
    requires name != [] && Trim(name) == name && Split(name) == parts
    requires |parts| > 1 && parts[0] != [] && parts[1] != []
    ensures InitialsDefined(Some(name))
    ensures Initials(Some(name)) == [UpperChar(parts[0][0]), UpperChar(parts[1][0])]
  {
    var pair := [parts[0][0], parts[1][0]];
    assert ToUpperCase(pair) == [UpperChar(pair[0]), UpperChar(pair[1])];
  }

  /** A single initial read off the pieces of a name that needs no trimming,
      when there is no second piece or the second is empty. */
  lemma InitialFromPieces(name: string, parts: seq<string>)
    requires name != [] && Trim(name) == name && Split(name) == parts
    requires parts[0] != [] && (|parts| == 1 || parts[1] == [])
    ensures InitialsDefined(Some(name))
    ensures Initials(Some(name)) == [UpperChar(parts[0][0])]
  {
    var single := [parts[0][0]];
    assert ToUpperCase(single) == [UpperChar(single[0])];
  }

  /** A name of two or more words separated by single spaces has the
      upper-cased first letters of its first two words as initials; later
      words play no part. */
  lemma InitialsOfWords(first: string, second: string, more: seq<string>)
    requires IsWord(first) && IsWord(second)
    requires forall i {:trigger more[i]} :: 0 <= i < |more| ==> IsWord(more[i])
    ensures InitialsDefined(Some(Join([first, second] + more)))
    ensures Initials(Some(Join([first, second] + more))) == [UpperChar(first[0]), UpperChar(second[0])]
  {
    var words := [first, second] + more;
    forall i | 0 <= i < |words| ensures IsWord(words[i]) {
      if i >= 2 {
        assert words[i] == more[i - 2];
      }
    }
    WordsJoinUnpadded(words);
    JoinEnds(words);
    InitialsFromPieces(Join(words), words);
  }

  /** A one-word name has a single initial. */
  lemma InitialOfOneWord(w: string)
    requires IsWord(w)
    ensures InitialsDefined(Some(w))
    ensures Initials(Some(w)) == [UpperChar(w[0])]
  {
    WordsJoinUnpadded([w]);
  }

  /** Two spaces after the first word leave an empty second piece, so there is
      a single initial whatever follows. */
  lemma InitialAfterDoubleSpace(w: string, rest: string)
    requires IsWord(w)
    requires rest != [] && !IsWhitespace(rest[|rest| - 1])
    ensures InitialsDefined(Some(w + "  " + rest))
    ensures Initials(Some(w + "  " + rest)) == [UpperChar(w[0])]
  {
    var name := w + "  " + rest;
    assert IsWhitespace(' ');
    assert ' ' !in w by {
      assert forall k :: 0 <= k < |w| ==> w[k] != ' ';
    }
    assert name[0] == w[0] && name[|name| - 1] == rest[|rest| - 1];
    TrimKeepsUnpaddedString(name);
    SplitDoubleSpace(w, rest);
    InitialFromPieces(name, [w, ""] + Split(rest));
  }

  /** Whitespace around a name, on either side, does not change its
      initials: the name is trimmed before it is split. */
  lemma InitialsIgnorePadding(a: string, name: string, b: string)
    requires AllWhitespace(a) && AllWhitespace(b)
    requires name != [] && !IsWhitespace(name[0]) && !IsWhitespace(name[|name| - 1])
    ensures InitialsDefined(Some(a + name + b)) && InitialsDefined(Some(name))
    ensures Initials(Some(a + name + b)) == Initials(Some(name))
  {
    TrimOfPadded(a, name, b);
    TrimKeepsUnpaddedString(name);
  }

  /** "Ann Bo Cy" gives "AB": the third word plays no part. */
  lemma InitialsOfThreeWordName()
    ensures InitialsDefined(Some("Ann Bo Cy"))
    ensures Initials(Some("Ann Bo Cy")) == "AB"
  {
    var words := ["Ann", "Bo"] + ["Cy"];
    assert IsWord("Ann") && IsWord("Bo") && IsWord("Cy");
    assert Join(words) == "Ann Bo Cy" by {
      assert Join(words[2..]) == "Cy";
      assert Join(words[1..]) == "Bo" + " " + "Cy";
    }
    InitialsOfWords("Ann", "Bo", ["Cy"]);
  }

  /** "Ann  Lee" gives "A": the double space leaves the second piece empty. */
  lemma InitialOfDoubleSpacedName()
    ensures InitialsDefined(Some("Ann  Lee"))
    ensures Initials(Some("Ann  Lee")) == "A"
  {
    assert "Ann  Lee" == "Ann" + "  " + "Lee";
    assert IsWord("Ann");
    InitialAfterDoubleSpace("Ann", "Lee");
  }

  /** A name of spaces only has no initials. */
  lemma NoInitialsForSpaces()
    ensures !InitialsDefined(Some("   "))
  {
    assert IsWhitespace(' ');
  }
}
