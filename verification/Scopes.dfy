// The scope of a token request: checked against the client and put in one form
// (section 3.3 of RFC 6749: scope tokens separated by spaces, in any order).
module Scopes {
  import opened Options
  import opened Text

  function Tokens(scope: string): set<string>
  {
    set w | w in Split(scope)
  }

  function Canonical(scope: string): string
  {
    Join(SortedSet(Split(scope)))
  }

  /** `validate_scope`: whether the request is allowed, and the scope to use. */
  function ValidateScope(allowed: string, requested: Option<string>): (bool, string)
  {
    if requested.None? || requested.value == "" then (true, allowed)
    else if Tokens(requested.value) - Tokens(allowed) != {} then (false, "")
    else (true, Canonical(requested.value))
  }

  /** The canonical text has exactly the tokens of the scope, ascending, and is canonical itself. */
  lemma CanonicalForm(scope: string)
    ensures Split(Canonical(scope)) == SortedSet(Split(scope)) && Ascending(Split(Canonical(scope)))
    ensures Tokens(Canonical(scope)) == Tokens(scope)
    ensures Canonical(Canonical(scope)) == Canonical(scope)
    ensures Canonical(scope) == "" <==> Tokens(scope) == {}
  {
    var words := SortedSet(Split(scope));
    SortedSetSorts(Split(scope));
    SplitJoin(words);
    SortedSetSorts(words);
    AscendingIsUnique(SortedSet(words), words);
    if words == [] {
      assert forall w :: w !in Split(scope);
    } else {
      assert words[0] in Split(scope) && words[0] in Tokens(scope);
    }
  }

  /** A non-empty request is accepted exactly when all its tokens are allowed; the result has
      exactly the requested tokens. */
  lemma AcceptedTokens(allowed: string, requested: string)
    requires requested != ""
    ensures var (ok, scope) := ValidateScope(allowed, Some(requested));
            && (ok <==> Tokens(requested) <= Tokens(allowed))
            && (ok ==> Tokens(scope) == Tokens(requested) && Ascending(Split(scope)))
            && (!ok ==> scope == "")
    ensures ValidateScope(allowed, None) == ValidateScope(allowed, Some("")) == (true, allowed)
  {
    CanonicalForm(requested);
    if Tokens(requested) - Tokens(allowed) == {} {
      forall w | w in Tokens(requested) ensures w in Tokens(allowed) {
        assert w !in Tokens(requested) - Tokens(allowed);
      }
    }
  }

  /** Two accepted requests give the same text exactly when they ask for the same tokens. */
  lemma SameTokensSameText(allowed: string, r1: string, r2: string)
    requires r1 != "" && r2 != ""
    requires ValidateScope(allowed, Some(r1)).0 && ValidateScope(allowed, Some(r2)).0
    ensures ValidateScope(allowed, Some(r1)).1 == ValidateScope(allowed, Some(r2)).1 <==> Tokens(r1) == Tokens(r2)
  {
    CanonicalForm(r1);
    CanonicalForm(r2);
    if Tokens(r1) == Tokens(r2) {
      SortedSetSorts(Split(r1));
      SortedSetSorts(Split(r2));
      forall w ensures w in Split(r1) <==> w in Split(r2) {
        assert w in Tokens(r1) <==> w in Tokens(r2);
      }
      AscendingIsUnique(SortedSet(Split(r1)), SortedSet(Split(r2)));
    }
  }

  /** When validating an accepted scope once more changes nothing: always for a request with a
      token; without one only if the client's own scope is empty or canonical, and for a request of
      nothing but whitespace only if the client's scope is empty. */
  lemma RevalidationIff(allowed: string, requested: Option<string>)
    requires ValidateScope(allowed, requested).0
    ensures ValidateScope(allowed, Some(ValidateScope(allowed, requested).1)) == ValidateScope(allowed, requested)
            <==> if requested.None? || requested.value == "" then allowed == Canonical(allowed)
                 else Tokens(requested.value) != {} || allowed == ""
  {
    CanonicalForm(allowed);
    if requested.Some? && requested.value != "" {
      CanonicalForm(requested.value);
      AcceptedTokens(allowed, requested.value);
    } else {
      assert Tokens(allowed) - Tokens(allowed) == {};
      if allowed == "" { assert Canonical("") == ""; }
    }
  }

  /** The scope "b a" of a client is used as it stands and comes back as "a b"; a request of one blank is
      answered with no scope, and asking for no scope gives the client's whole scope. */
  lemma RevalidationChanges()
    ensures ValidateScope("b a", None) == (true, "b a") && ValidateScope("b a", Some("b a")) == (true, "a b")
    ensures ValidateScope("a", Some(" ")) == (true, "") && ValidateScope("a", Some("")) == (true, "a")
  {
    var words := ["b", "a"];
    assert words[1..] == ["a"] && Join(words) == "b a" && Join(["a", "b"]) == "a b" by {
      assert ["a", "b"][1..] == ["b"];
    }
    SplitJoin(words);
    SortedSetSorts(words);
    AscendingIsUnique(SortedSet(words), ["a", "b"]);
  }
}
