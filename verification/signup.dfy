/** Account registration (POST /api/auth/signup): the request schema, the
    username derived from the display name and made unique with a numeric
    suffix, the email-conflict check, and the stored user record. */
module Signup {
  import opened Common
  import opened Text

  /** `str.replace(/\s+/g, "").toLowerCase()`. */
  function RemoveSpaces(s: string): (r: string)
    ensures |r| <= |s|
    ensures forall i :: 0 <= i < |r| ==> !IsSpace(r[i]) && !IsUpper(r[i])
    ensures forall i :: 0 <= i < |s| && !IsSpace(s[i]) ==> Lower(s[i]) in r
  {
    if s == [] then []
    else if IsSpace(s[0]) then RemoveSpaces(s[1..])
    else [Lower(s[0])] + RemoveSpaces(s[1..])
  }

  /** One character: a whitespace character disappears, any other is
      lower-cased. */
  lemma RemoveSpacesChar(c: char)
    ensures RemoveSpaces([c]) == if IsSpace(c) then [] else [Lower(c)]
  {
    assert [c][1..] == [];
  }

  /** The characters are handled one at a time, in order: the result for a
      concatenation is the concatenation of the results. With
      `RemoveSpacesChar` this fixes the result for every string. */
  lemma {:induction false} RemoveSpacesAppend(a: string, b: string)
    ensures RemoveSpaces(a + b) == RemoveSpaces(a) + RemoveSpaces(b)
  {
    if a != [] {
      assert (a + b)[0] == a[0] && (a + b)[1..] == a[1..] + b;
      RemoveSpacesAppend(a[1..], b);
    } else {
      assert a + b == b;
    }
  }

  /** Removing spaces twice is the same as removing them once. */
  lemma {:induction false} RemoveSpacesIdempotent(s: string)
    ensures RemoveSpaces(RemoveSpaces(s)) == RemoveSpaces(s)
  {
    if s != [] {
      RemoveSpacesIdempotent(s[1..]);
      if !IsSpace(s[0]) {
        var r := RemoveSpaces(s);
        assert r[0] == Lower(s[0]) && r[1..] == RemoveSpaces(s[1..]);
        assert !IsSpace(Lower(s[0]));
      }
    }
  }

  predicate IsSpecial(c: char) {
    c == '@' || c == '$' || c == '!' || c == '%' || c == '*' || c == '?' || c == '&'
  }

  /** The password rule: at least eight characters drawn only from letters,
      digits and `@$!%*?&`, with at least one lowercase letter, one
      uppercase letter, one digit and one special character. */
  predicate PasswordOk(p: string) {
    |p| >= 8 &&
    (exists i :: 0 <= i < |p| && IsLower(p[i])) &&
    (exists i :: 0 <= i < |p| && IsUpper(p[i])) &&
    (exists i :: 0 <= i < |p| && IsDigit(p[i])) &&
    (exists i :: 0 <= i < |p| && IsSpecial(p[i])) &&
    (forall i :: 0 <= i < |p| ==> IsLower(p[i]) || IsUpper(p[i]) || IsDigit(p[i]) || IsSpecial(p[i]))
  }

  datatype SignupField = NameField | EmailField | PasswordField

  /** The fields `signupSchema` rejects. Whether the address passes the
      schema's email check is an input. */
  function SignupFieldErrors(name: string, emailValid: bool, password: string): (errs: set<SignupField>)
    ensures NameField in errs <==> !(2 <= |name| <= 50)
    ensures EmailField in errs <==> !emailValid
    ensures PasswordField in errs <==> !PasswordOk(password)
    ensures errs <= {NameField, EmailField, PasswordField}
  {
    (if 2 <= |name| <= 50 then {} else {NameField}) +
    (if emailValid then {} else {EmailField}) +
    (if PasswordOk(password) then {} else {PasswordField})
  }

  /** The k-th username tried: the base itself, then the base with 1, 2, ...
      appended. */
  function Candidate(base: string, k: nat): (c: string)
    ensures |c| >= |base| && c[..|base|] == base
    ensures k > 0 ==> |c| > |base|
  {
    if k == 0 then base else base + NatToString(k)
  }

  /** Different attempts try different names. */
  lemma CandidateInjective(base: string, j: nat, k: nat)
    requires Candidate(base, j) == Candidate(base, k)
    ensures j == k
  {
    if j > 0 && k > 0 {
      var cj, ck := Candidate(base, j), Candidate(base, k);
      assert cj[|base|..] == NatToString(j);
      assert ck[|base|..] == NatToString(k);
      NatToStringInjective(j, k);
    }
  }

  /** A user document. `password` holds the hash, never the plain text. */
  datatype User = User(username: string, displayName: string, email: string, password: string, role: string)

  class UserStore {
    var users: seq<User>

    /** Usernames are non-empty (the field is required), and usernames and
        emails are unique across the collection. */
    ghost predicate Valid()
      reads this
    {
      (forall i :: 0 <= i < |users| ==> users[i].username != []) &&
      (forall i, j :: 0 <= i < j < |users| ==> users[i].username != users[j].username) &&
      (forall i, j :: 0 <= i < j < |users| ==> users[i].email != users[j].email)
    }

    constructor ()
      ensures Valid() && users == []
    {
      users := [];
    }

    function Usernames(): set<string>
      reads this
    {
      set u | u in users :: u.username
    }

    /** The `while (findOne({ username }))` loop: the first candidate no
        stored user has. */
    method UniqueUsername(base: string) returns (name: string)
      ensures name !in Usernames()
      ensures |name| >= |base| && name[..|base|] == base
      ensures base !in Usernames() ==> name == base
      ensures exists k: nat :: (name == Candidate(base, k) &&
        forall j: nat :: j < k ==> Candidate(base, j) in Usernames())
    {
      var taken := Usernames();
      name := base;
      var counter := 1;
      ghost var tried: set<string> := {};
      while name in taken
        invariant counter >= 1 && name == Candidate(base, counter - 1)
        invariant tried == set j: nat | j < counter - 1 :: Candidate(base, j)
        invariant tried <= taken && |tried| == counter - 1
        invariant forall j: nat :: j < counter - 1 ==> Candidate(base, j) in taken
        decreases |taken| - |tried|
      {
        forall j: nat | j < counter - 1 ensures Candidate(base, j) != name {
          if Candidate(base, j) == name {
            CandidateInjective(base, j, counter - 1);
          }
        }
        assert name !in tried;
        tried := tried + {name};
        assert tried <= taken;
        SubsetCard(tried, taken);
        name := base + NatToString(counter);
        counter := counter + 1;
        assert tried == set j: nat | j < counter - 1 :: Candidate(base, j);
      }
    }

    /** The POST handler. `password` is the plain text the schema checks;
        `hashed` is what bcrypt produced from it. */
    method SignUp(name: string, email: string, emailValid: bool, password: string, hashed: string)
      returns (r: Response<string>, errors: set<SignupField>)
      requires Valid()
      modifies this
      ensures Valid()
      ensures SignupFieldErrors(name, emailValid, password) != {} ==>
        r == Fail(400, "Invalid input") && errors == SignupFieldErrors(name, emailValid, password)
      ensures SignupFieldErrors(name, emailValid, password) == {} && (exists u :: u in old(users) && u.email == email) ==>
        r == Fail(409, "Email already in use")
      ensures SignupFieldErrors(name, emailValid, password) == {} && RemoveSpaces(name) == [] &&
              (forall u :: u in old(users) ==> u.email != email) ==>
        r == Fail(500, "An error occurred during signup")
      ensures r.Fail? ==> users == old(users)
      ensures r.Ok? ==>
        r.status == 201 && errors == {} &&
        r.body !in old(Usernames()) && r.body != [] &&
        |r.body| >= |RemoveSpaces(name)| && r.body[..|RemoveSpaces(name)|] == RemoveSpaces(name) &&
        users == old(users) + [User(r.body, name, email, hashed, "user")]
      ensures r.Ok? <==> (SignupFieldErrors(name, emailValid, password) == {} && RemoveSpaces(name) != [] &&
        forall u :: u in old(users) ==> u.email != email)
    {
      errors := SignupFieldErrors(name, emailValid, password);
      if errors != {} {
        return Fail(400, "Invalid input"), errors;
      }
      var username := RemoveSpaces(name);
      assert [] !in Usernames();
      var unique := UniqueUsername(username);
      var i := 0;
      while i < |users|
        invariant 0 <= i <= |users|
        invariant forall k :: 0 <= k < i ==> users[k].email != email
      {
        if users[i].email == email {
          return Fail(409, "Email already in use"), errors;
        }
        i := i + 1;
      }
      if unique == [] {
        // the required `username` of the document is empty: saving fails
        return Fail(500, "An error occurred during signup"), errors;
      }
      users := users + [User(unique, name, email, hashed, "user")];
      r := Ok(201, unique);
    }
  }

  lemma SubsetCard<T>(a: set<T>, b: set<T>)
    requires a <= b
    ensures |a| <= |b|
  {
    assert b == a + (b - a);
  }
}
