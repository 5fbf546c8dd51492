/** Identity storage paths: canonical form, validation, and the separation of user trees. */
module Paths {
  import opened Common

  datatype PathError = Empty | NotAbsolute | TraversalAttempt | NullByte | OutsideAllowed | ConsecutiveSlashes

  // ---------------------------------------------------------------- splitting and joining

  /** The components between slashes; a path with n slashes has n + 1 of them. */
  function Split(p: string): (cs: seq<string>)
    ensures cs != []
  {
    if p == "" then [""] else Push(Split(p[..|p| - 1]), p[|p| - 1])
  }

  /** One more character: a slash opens a component, any other extends the last. */
  function Push(cs: seq<string>, c: char): (ds: seq<string>)
    requires cs != []
    ensures ds != []
  {
    if c == '/' then cs + [""] else cs[..|cs| - 1] + [cs[|cs| - 1] + [c]]
  }

  function Join(cs: seq<string>): string {
    if cs == [] then "" else Join(cs[..|cs| - 1]) + "/" + cs[|cs| - 1]
  }

  predicate Kept(c: string) { c != "" && c != "." }

  function Filter(cs: seq<string>): seq<string> {
    if cs == [] then []
    else
      var prior, c := Filter(cs[..|cs| - 1]), cs[|cs| - 1];
      if Kept(c) then prior + [c] else prior
  }

  /** What a path means: its components without the empty and current-directory ones. */
  function Components(p: string): seq<string> { Filter(Split(p)) }

  function Canonical(p: string): string {
    if Components(p) == [] then "/" else Join(Components(p))
  }

  predicate Plain(c: string) { '/' !in c }

  ghost predicate AllPlain(cs: seq<string>) { forall i :: 0 <= i < |cs| ==> Plain(cs[i]) }

  ghost predicate AllKept(cs: seq<string>) { forall i :: 0 <= i < |cs| ==> Kept(cs[i]) }

  lemma {:induction false} SplitIsPlain(p: string)
    ensures AllPlain(Split(p))
  {
    if p != "" {
      SplitIsPlain(p[..|p| - 1]);
      var cs := Split(p[..|p| - 1]);
      assert Plain(cs[|cs| - 1]);
    }
  }

  lemma {:induction false} FilterKeeps(cs: seq<string>)
    ensures AllKept(Filter(cs))
    ensures AllPlain(cs) ==> AllPlain(Filter(cs))
    ensures AllKept(cs) ==> Filter(cs) == cs
  {
    if cs != [] {
      FilterKeeps(cs[..|cs| - 1]);
      assert cs == cs[..|cs| - 1] + [cs[|cs| - 1]];
    }
  }

  lemma {:induction false} FilterAppend(a: seq<string>, b: seq<string>)
    ensures Filter(a + b) == Filter(a) + Filter(b)
  {
    if b == [] {
      assert a + b == a;
    } else {
      FilterAppend(a, b[..|b| - 1]);
      assert (a + b)[..|a + b| - 1] == a + b[..|b| - 1];
    }
  }

  /** Putting a slash between two texts puts their components one after the other. */
  lemma {:induction false} SplitAppend(a: string, b: string)
    ensures Split(a + "/" + b) == Split(a) + Split(b)
  {
    if b == "" {
      SplitSnoc(a, '/');
      assert a + "/" + b == a + ['/'];
    } else {
      var prior, c := b[..|b| - 1], b[|b| - 1];
      SplitAppend(a, prior);
      SplitSnoc(a + "/" + prior, c);
      assert a + "/" + b == (a + "/" + prior) + [c];
      PushAppend(Split(a), Split(prior), c);
    }
  }

  lemma SplitSnoc(p: string, c: char)
    ensures Split(p + [c]) == Push(Split(p), c)
  {
    assert (p + [c])[..|p|] == p;
  }

  lemma PushAppend(cs: seq<string>, ds: seq<string>, c: char)
    requires ds != []
    ensures Push(cs + ds, c) == cs + Push(ds, c)
  {
    assert (cs + ds)[..|cs + ds| - 1] == cs + ds[..|ds| - 1];
  }

  lemma {:induction false} SplitPlain(c: string)
    requires Plain(c)
    ensures Split(c) == [c]
  {
    if c != "" {
      assert Plain(c[..|c| - 1]);
      SplitPlain(c[..|c| - 1]);
      assert c == c[..|c| - 1] + [c[|c| - 1]];
    }
  }

  /** Joined plain components come apart again. */
  lemma {:induction false} SplitJoin(cs: seq<string>)
    requires AllPlain(cs)
    ensures Split(Join(cs)) == [""] + cs
  {
    if cs != [] {
      var prior, c := cs[..|cs| - 1], cs[|cs| - 1];
      SplitJoin(prior);
      SplitAppend(Join(prior), c);
      SplitPlain(c);
      assert cs == prior + [c];
    }
  }

  /** And a split path goes back together. */
  lemma {:induction false} JoinSplit(p: string)
    ensures Join(Split(p)) == "/" + p
  {
    if p == "" {
      assert Join([""]) == "/";
    } else {
      JoinSplit(p[..|p| - 1]);
      JoinPush(Split(p[..|p| - 1]), p[|p| - 1]);
      assert p == p[..|p| - 1] + [p[|p| - 1]];
    }
  }

  lemma JoinPush(cs: seq<string>, c: char)
    requires cs != []
    ensures Join(Push(cs, c)) == Join(cs) + [c]
  {
    if c == '/' {
      assert (cs + [""])[..|cs|] == cs;
    } else {
      var front, last := cs[..|cs| - 1], cs[|cs| - 1];
      assert (front + [last + [c]])[..|front|] == front;
      assert Join(front) + "/" + (last + [c]) == (Join(front) + "/" + last) + [c];
    }
  }

  lemma ComponentsAppend(a: string, b: string)
    ensures Components(a + "/" + b) == Components(a) + Components(b)
  {
    SplitAppend(a, b);
    FilterAppend(Split(a), Split(b));
  }

  // ---------------------------------------------------------------- canonical form

  lemma ComponentsAreClean(p: string)
    ensures AllPlain(Components(p)) && AllKept(Components(p))
  {
    SplitIsPlain(p);
    FilterKeeps(Split(p));
  }

  /** Canonicalising keeps the meaning: the components of the result are the kept components of the input. */
  lemma CanonicalKeepsComponents(p: string)
    ensures Components(Canonical(p)) == Components(p)
    ensures Split(Canonical(p)) == if Components(p) == [] then ["", ""] else [""] + Components(p)
  {
    var cs := Components(p);
    ComponentsAreClean(p);
    if cs == [] {
      SplitAppend("", "");
      assert "" + "/" + "" == "/";
    } else {
      SplitJoin(cs);
      FilterAppend([""], cs);
      FilterKeeps(cs);
    }
  }

  lemma CanonicalIsIdempotent(p: string)
    ensures Canonical(Canonical(p)) == Canonical(p)
  {
    CanonicalKeepsComponents(p);
  }

  /** Two paths have the same canonical form exactly when they have the same components. */
  lemma CanonicalDecidesMeaning(p: string, q: string)
    ensures Canonical(p) == Canonical(q) <==> Components(p) == Components(q)
  {
    CanonicalKeepsComponents(p);
    CanonicalKeepsComponents(q);
  }

  /** The text `c` followed by `c`. */
  predicate Doubled(s: string, c: char) {
    exists i :: 0 <= i < |s| - 1 && s[i] == c && s[i + 1] == c
  }

  lemma {:induction false} JoinHasNoDoubleSlash(cs: seq<string>)
    requires AllPlain(cs) && AllKept(cs)
    ensures !Doubled(Join(cs), '/')
    ensures cs != [] ==> Join(cs) != "" && Join(cs)[0] == '/' && Join(cs)[|Join(cs)| - 1] != '/'
  {
    if cs != [] {
      var prior, c := cs[..|cs| - 1], cs[|cs| - 1];
      JoinHasNoDoubleSlash(prior);
      assert Plain(c) && Kept(c);
      var a, s := Join(prior), Join(cs);
      assert c[0] in c && c[|c| - 1] in c;
      forall i | 0 <= i < |s| - 1 && s[i] == '/'
        ensures s[i + 1] != '/'
      {
        if i < |a| {
          assert s[i] == a[i];
          if i + 1 < |a| { assert s[i + 1] == a[i + 1]; }
        } else if i == |a| {
          assert s[i + 1] == c[0];
        }
      }
    }
  }

  predicate Mentions(cs: seq<string>, ch: char) {
    cs != [] && (Mentions(cs[..|cs| - 1], ch) || ch in cs[|cs| - 1])
  }

  lemma {:induction false} JoinMentions(cs: seq<string>, ch: char)
    requires ch != '/'
    ensures ch in Join(cs) <==> Mentions(cs, ch)
  {
    if cs != [] { JoinMentions(cs[..|cs| - 1], ch); }
  }

  lemma {:induction false} FilterMentions(cs: seq<string>, ch: char)
    requires ch != '.'
    ensures Mentions(Filter(cs), ch) <==> Mentions(cs, ch)
  {
    if cs != [] {
      FilterMentions(cs[..|cs| - 1], ch);
      var prior, c := Filter(cs[..|cs| - 1]), cs[|cs| - 1];
      assert (prior + [c])[..|prior|] == prior;
    }
  }

  /** No character other than a slash or a dot is lost or made up. */
  lemma CanonicalKeepsCharacters(p: string, ch: char)
    requires ch != '/' && ch != '.'
    ensures ch in Canonical(p) <==> ch in p
  {
    JoinSplit(p);
    JoinMentions(Split(p), ch);
    FilterMentions(Split(p), ch);
    JoinMentions(Components(p), ch);
  }

  lemma {:induction false} JoinDoubles(cs: seq<string>, i: nat)
    requires i < |cs| && Doubled(cs[i], '.')
    ensures Doubled(Join(cs), '.')
  {
    var prior, c := cs[..|cs| - 1], cs[|cs| - 1];
    var a, s := Join(prior), Join(cs);
    if i == |prior| {
      var k :| 0 <= k < |c| - 1 && c[k] == '.' && c[k + 1] == '.';
      assert s[|a| + 1 + k] == '.' && s[|a| + 1 + k + 1] == '.';
    } else {
      JoinDoubles(prior, i);
      var k :| 0 <= k < |a| - 1 && a[k] == '.' && a[k + 1] == '.';
      assert s[k] == '.' && s[k + 1] == '.';
    }
  }

  /** A text without two dots in a row has no `..` component. */
  lemma NoDotsNoParent(p: string)
    requires !Doubled(p, '.')
    ensures ".." !in Split(p)
  {
    if ".." in Split(p) {
      var i :| 0 <= i < |Split(p)| && Split(p)[i] == "..";
      assert ".."[0] == '.' && ".."[1] == '.';
      JoinDoubles(Split(p), i);
      JoinSplit(p);
      assert false;
    }
  }

  lemma {:induction false} FilterAddsNothing(cs: seq<string>, c: string)
    ensures c in Filter(cs) <==> c in cs && Kept(c)
  {
    if cs != [] {
      FilterAddsNothing(cs[..|cs| - 1], c);
      assert cs == cs[..|cs| - 1] + [cs[|cs| - 1]];
    }
  }

  // ---------------------------------------------------------------- validation

  predicate StartsWith(s: string, prefix: string) { |prefix| <= |s| && s[..|prefix|] == prefix }

  predicate Allowed(p: string) {
    StartsWith(p, "/home/") || StartsWith(p, "/users/") || p == "/users/registry.json"
  }

  /** The first rule a path breaks, in the order they are tried. */
  function Verdict(p: string): Option<PathError> {
    if p == "" then Some(Empty)
    else if '\0' in p then Some(NullByte)
    else if !StartsWith(p, "/") then Some(NotAbsolute)
    else if Doubled(p, '/') then Some(ConsecutiveSlashes)
    else if ".." in Split(p) then Some(TraversalAttempt)
    else if !Allowed(p) then Some(OutsideAllowed)
    else None
  }

  /** What the rules promise of an accepted path, in terms of its meaning. */
  lemma AcceptedStaysInside(p: string)
    requires Verdict(p) == None
    ensures Components(p) != [] && Components(p)[0] in {"home", "users"} && ".." !in Components(p)
  {
    if StartsWith(p, "/home/") {
      assert p == "/home/" + p[6..];
      UnderHome(p[6..]);
    } else {
      assert p == "/users/" + p[7..];
      UnderUsers(p[7..]);
    }
    FilterAddsNothing(Split(p), "..");
  }

  lemma UnderHome(rest: string)
    ensures Components("/home/" + rest) == ["home"] + Components(rest)
    ensures Split("/home/" + rest) == ["", "home"] + Split(rest)
  {
    UnderBase("home", rest);
    assert "/" + "home" + "/" == "/home/";
  }

  lemma UnderUsers(rest: string)
    ensures Components("/users/" + rest) == ["users"] + Components(rest)
    ensures Split("/users/" + rest) == ["", "users"] + Split(rest)
  {
    UnderBase("users", rest);
    assert "/" + "users" + "/" == "/users/";
  }

  lemma UnderBase(base: string, rest: string)
    requires Plain(base) && Kept(base)
    ensures Components("/" + base + "/" + rest) == [base] + Components(rest)
    ensures Split("/" + base + "/" + rest) == ["", base] + Split(rest)
  {
    SplitTop(base);
    SplitAppend("/" + base, rest);
    FilterAppend(["", base], Split(rest));
    FilterTop(base);
  }

  lemma FilterTop(base: string)
    requires Kept(base)
    ensures Filter(["", base]) == [base]
  {
    assert ["", base] == [""] + [base];
    AfterEmpty([base]);
    OneKept(base);
  }

  lemma SplitTop(base: string)
    requires Plain(base)
    ensures Split("/" + base) == ["", base]
  {
    assert "/" + base == "" + "/" + base;
    SplitAppend("", base);
    SplitPlain("");
    SplitPlain(base);
  }

  lemma AfterEmpty(cs: seq<string>)
    ensures Filter([""] + cs) == Filter(cs)
  {
    FilterAppend([""], cs);
    OneKept("");
    assert [] + Filter(cs) == Filter(cs);
  }

  lemma OneKept(c: string)
    ensures Filter([c]) == if Kept(c) then [c] else []
  {
    assert [c][..0] == [];
  }

  predicate HasTrailingSlash(p: string) { p != "" && p[|p| - 1] == '/' }

  /** Anything directly under `/home/` is accepted, unless it is `..` or holds a null. */
  lemma HomeFileAccepted(name: string)
    requires Plain(name) && '\0' !in name && name != ".."
    ensures Verdict("/home/" + name) == None && Split("/home/" + name) == ["", "home", name]
  {
    HomeSplit(name);
    HomeHasNoDoubleSlash(name);
    HomeHasNoNull(name);
    var p := "/home/" + name;
    assert StartsWith(p, "/home/") && StartsWith(p, "/");
  }

  lemma HomeSplit(name: string)
    requires Plain(name) && name != ".."
    ensures Split("/home/" + name) == ["", "home", name] && ".." !in Split("/home/" + name)
  {
    UnderHome(name);
    SplitPlain(name);
    assert |"home"| == 4 && |".."| == 2;
  }

  lemma HomeHasNoNull(name: string)
    requires '\0' !in name
    ensures '\0' !in "/home/" + name
  {
  }

  lemma HomeHasNoDoubleSlash(name: string)
    requires Plain(name)
    ensures !Doubled("/home/" + name, '/')
  {
    var p := "/home/" + name;
    assert forall i :: 6 <= i < |p| ==> p[i] == name[i - 6];
  }

  lemma AbsoluteSplit(p: string)
    requires StartsWith(p, "/")
    ensures |Split(p)| >= 2 && Split(p)[0] == "" && Join(Split(p)[1..]) == p
  {
    var rest := p[1..];
    assert p == "" + "/" + rest;
    SplitAppend("", rest);
    SplitPlain("");
    JoinSplit(rest);
    assert Split(p)[1..] == Split(rest);
  }

  /** An empty component before the last puts two slashes side by side. */
  lemma {:induction false} EmptyInside(cs: seq<string>, i: nat)
    requires i < |cs| - 1 && cs[i] == ""
    ensures Doubled(Join(cs), '/')
  {
    var prior, c := cs[..|cs| - 1], cs[|cs| - 1];
    var a, s := Join(prior), Join(cs);
    if i == |prior| - 1 {
      assert a == Join(prior[..|prior| - 1]) + "/" + "";
      assert s[|a| - 1] == '/' && s[|a| - 1 + 1] == '/';
    } else {
      EmptyInside(prior, i);
      var k :| 0 <= k < |a| - 1 && a[k] == '/' && a[k + 1] == '/';
      assert s[k] == '/' && s[k + 1] == '/';
    }
  }

  lemma {:induction false} LastIsEmpty(cs: seq<string>)
    requires cs != [] && cs[|cs| - 1] == ""
    ensures HasTrailingSlash(Join(cs))
  {
  }

  /** Exactly when an accepted path is already canonical: it has no `.` component and no trailing slash. */
  lemma AcceptedIsCanonicalExactly(p: string)
    requires Verdict(p) == None
    ensures Canonical(p) == p <==> "." !in Split(p) && !HasTrailingSlash(p)
  {
    AcceptedStaysInside(p);
    if "." !in Split(p) && !HasTrailingSlash(p) {
      CleanIsCanonical(p);
    }
    if Canonical(p) == p {
      CanonicalIsClean(p);
    }
  }

  lemma CleanIsCanonical(p: string)
    requires StartsWith(p, "/") && !Doubled(p, '/') && "." !in Split(p) && !HasTrailingSlash(p)
    ensures Canonical(p) == p
  {
    AbsoluteSplit(p);
    var cs := Split(p)[1..];
    assert Split(p) == [""] + cs;
    forall i | 0 <= i < |cs|
      ensures Kept(cs[i])
    {
      assert Split(p)[i + 1] in Split(p);
      if cs[i] == "" {
        if i == |cs| - 1 {
          LastIsEmpty(cs);
        } else {
          EmptyInside(cs, i);
        }
        assert false;
      }
    }
    FilterAppend([""], cs);
    FilterKeeps(cs);
    OneKept("");
    assert Components(p) == [] + cs == cs;
  }

  lemma CanonicalIsClean(p: string)
    requires Canonical(p) == p && Components(p) != []
    ensures "." !in Split(p) && !HasTrailingSlash(p)
  {
    CanonicalKeepsComponents(p);
    ComponentsAreClean(p);
    JoinHasNoDoubleSlash(Components(p));
    NoDotAmongKept(Components(p));
  }

  lemma NoDotAmongKept(cs: seq<string>)
    requires AllKept(cs)
    ensures "." !in [""] + cs
  {
    assert forall i :: 0 <= i < |cs| ==> Kept(cs[i]);
  }

  // ---------------------------------------------------------------- acceptance and rejection, exactly

  /** Being allowed is having `home` or `users` as first component and something, if only a slash, after it. */
  lemma AllowedExactly(p: string)
    requires StartsWith(p, "/")
    ensures Allowed(p) <==> |Split(p)| >= 3 && Split(p)[1] in {"home", "users"}
  {
    if Allowed(p) {
      AllowedHasBase(p);
    }
    if |Split(p)| >= 3 && Split(p)[1] in {"home", "users"} {
      AbsoluteSplit(p);
      JoinStart(Split(p)[1..]);
      BaseIsAllowed(p, Split(p)[1]);
    }
  }

  lemma AllowedHasBase(p: string)
    requires Allowed(p)
    ensures |Split(p)| >= 3 && Split(p)[1] in {"home", "users"}
  {
    if StartsWith(p, "/home/") {
      assert p == "/home/" + p[6..];
      UnderHome(p[6..]);
    } else {
      assert p == "/users/" + p[7..];
      UnderUsers(p[7..]);
    }
  }

  lemma BaseIsAllowed(p: string, base: string)
    requires base in {"home", "users"} && StartsWith(p, "/" + base + "/")
    ensures Allowed(p)
  {
    assert "/" + "home" + "/" == "/home/" && "/" + "users" + "/" == "/users/";
  }

  lemma DoubledBelow(base: string, rest: string)
    requires Plain(base) && base != ""
    ensures Doubled("/" + base + "/" + rest, '/') <==> Doubled("/" + rest, '/')
  {
    var top := "/" + base;
    var p, q := top + "/" + rest, "/" + rest;
    assert p == top + q;
    if Doubled(q, '/') {
      var i :| 0 <= i < |q| - 1 && q[i] == '/' && q[i + 1] == '/';
      assert p[|top| + i] == '/' && p[|top| + i + 1] == '/';
    }
    if Doubled(p, '/') {
      var i :| 0 <= i < |p| - 1 && p[i] == '/' && p[i + 1] == '/';
      NoSlashInTop(base, i);
      assert q[i - |top|] == '/' && q[i - |top| + 1] == '/';
    }
  }

  lemma NoSlashInTop(base: string, i: nat)
    requires Plain(base) && base != ""
    ensures i < |base| + 1 ==> ("/" + base)[i] != '/' || (i == 0 && ("/" + base)[1] != '/')
  {
    if i < |base| + 1 { assert ("/" + base)[i] == if i == 0 then '/' else base[i - 1]; }
    assert base[0] in base;
  }

  /** Under either base directory a path is accepted exactly if what follows has no null, no doubled slash and no parent
      component. */
  lemma AcceptedUnderBase(base: string, rest: string)
    requires base in {"home", "users"}
    ensures Verdict("/" + base + "/" + rest) == None <==>
      '\0' !in rest && !Doubled("/" + rest, '/') && ".." !in Split(rest)
  {
    BaseIsPlain(base);
    UnderBase(base, rest);
    DoubledBelow(base, rest);
    NullBelow(base, rest);
    ParentBelow(base, Split(rest));
    UnderBaseIsAllowed(base, rest);
  }

  lemma BaseIsPlain(base: string)
    requires base in {"home", "users"}
    ensures Plain(base) && Kept(base) && '\0' !in base && base != ".."
  {
    assert |"home"| == 4 && |"users"| == 5 && |".."| == 2 && |"."| == 1;
  }

  lemma NullBelow(base: string, rest: string)
    requires '\0' !in base
    ensures '\0' in "/" + base + "/" + rest <==> '\0' in rest
  {
  }

  lemma ParentBelow(base: string, cs: seq<string>)
    requires base != ".."
    ensures ".." in ["", base] + cs <==> ".." in cs
  {
    assert |""| == 0 && |".."| == 2;
  }

  lemma UnderBaseIsAllowed(base: string, rest: string)
    requires base in {"home", "users"}
    ensures Allowed("/" + base + "/" + rest) && StartsWith("/" + base + "/" + rest, "/")
  {
    BaseIsAllowed("/" + base + "/" + rest, base);
  }

  /** Which error a rejected path gets. */
  lemma RejectionExactly(p: string)
    ensures Verdict(p) == Some(Empty) <==> p == ""
    ensures Verdict(p) == Some(NullByte) <==> '\0' in p
    ensures Verdict(p) == Some(NotAbsolute) <==> p != "" && '\0' !in p && p[0] != '/'
    ensures Verdict(p) == Some(ConsecutiveSlashes) <==> p != "" && '\0' !in p && p[0] == '/' && Doubled(p, '/')
    ensures Verdict(p) == Some(TraversalAttempt) <==>
      p != "" && '\0' !in p && p[0] == '/' && !Doubled(p, '/') && ".." in Split(p)
    ensures Verdict(p) == Some(OutsideAllowed) <==>
      p != "" && '\0' !in p && p[0] == '/' && !Doubled(p, '/') && ".." !in Split(p) &&
      !(|Split(p)| >= 3 && Split(p)[1] in {"home", "users"})
  {
    if p != "" && p[0] == '/' {
      assert StartsWith(p, "/");
      AllowedExactly(p);
    }
  }

  // ---------------------------------------------------------------- user paths

  function Digit(d: nat): char
    requires d < 10
  {
    "0123456789"[d]
  }

  function Decimal(n: nat): (s: string)
    ensures s != ""
  {
    if n < 10 then [Digit(n)] else Decimal(n / 10) + [Digit(n % 10)]
  }

  lemma {:induction false} DecimalIsPlain(n: nat)
    ensures '/' !in Decimal(n) && '.' !in Decimal(n) && '\0' !in Decimal(n)
  {
    if n >= 10 { DecimalIsPlain(n / 10); }
  }

  lemma {:induction false} DecimalIsInjective(m: nat, n: nat)
    requires Decimal(m) == Decimal(n)
    ensures m == n
  {
    if m >= 10 && n >= 10 {
      var a, b := Decimal(m), Decimal(n);
      assert a[..|a| - 1] == Decimal(m / 10) && b[..|b| - 1] == Decimal(n / 10);
      DecimalIsInjective(m / 10, n / 10);
    }
  }

  /** The path a user's subpath names, before it is canonicalised. */
  function Requested(user: nat, sub: string): string {
    if StartsWith(sub, "/") then "/home/" + Decimal(user) + sub else "/home/" + Decimal(user) + "/" + sub
  }

  function UserPath(user: nat, sub: string): Result<string, PathError> {
    if Doubled(sub, '.') then Failure(TraversalAttempt)
    else
      var canonical := Canonical(Requested(user, sub));
      match Verdict(canonical)
      case Some(e) => Failure(e)
      case None => Success(canonical)
  }

  lemma RequestedComponents(user: nat, sub: string)
    ensures Components(Requested(user, sub)) == ["home", Decimal(user)] + Components(sub)
  {
    var d := Decimal(user);
    DecimalIsPlain(user);
    if StartsWith(sub, "/") {
      LeadingSlash(sub);
      InHome(d, sub[1..]);
      assert "/home/" + d + sub == "/home/" + d + "/" + sub[1..];
    } else {
      InHome(d, sub);
    }
  }

  lemma LeadingSlash(sub: string)
    requires StartsWith(sub, "/")
    ensures sub == "/" + sub[1..] && Components(sub) == Components(sub[1..])
  {
    assert sub == "" + "/" + sub[1..];
    ComponentsAppend("", sub[1..]);
    SplitPlain("");
    OneKept("");
  }

  lemma InHome(d: string, rest: string)
    requires Plain(d) && Kept(d)
    ensures Components("/home/" + d + "/" + rest) == ["home", d] + Components(rest)
  {
    HomeThen(d, rest);
    UnderHome(d + "/" + rest);
    ComponentsAppend(d, rest);
    OneComponent(d);
    assert ["home"] + ([d] + Components(rest)) == ["home", d] + Components(rest);
  }

  lemma HomeThen(d: string, rest: string)
    ensures "/home/" + d + "/" + rest == "/home/" + (d + "/" + rest)
  {
  }

  lemma OneComponent(c: string)
    requires Plain(c) && Kept(c)
    ensures Split(c) == [c] && Components(c) == [c]
  {
    SplitPlain(c);
    OneKept(c);
  }

  lemma CanonicalUserPath(user: nat, sub: string)
    ensures InUserTree(Canonical(Requested(user, sub)), ["home", Decimal(user)] + Components(sub))
  {
    RequestedComponents(user, sub);
    ComponentsAreClean(Requested(user, sub));
    CanonicalKeepsComponents(Requested(user, sub));
    JoinedInTree(["home", Decimal(user)] + Components(sub));
  }

  /** A path under `/home/` without doubled slashes, with these components. */
  ghost predicate InUserTree(p: string, cs: seq<string>) {
    StartsWith(p, "/home/") && !Doubled(p, '/') && Components(p) == cs
  }

  lemma JoinedInTree(cs: seq<string>)
    requires |cs| >= 2 && cs[0] == "home" && AllPlain(cs) && AllKept(cs)
    ensures StartsWith(Join(cs), "/home/") && !Doubled(Join(cs), '/')
  {
    JoinHasNoDoubleSlash(cs);
    JoinStart(cs);
    assert "/" + "home" + "/" == "/home/";
  }

  lemma {:induction false} JoinStart(cs: seq<string>)
    requires |cs| >= 2
    ensures StartsWith(Join(cs), "/" + cs[0] + "/")
  {
    if |cs| == 2 {
      assert cs[..1] == [cs[0]] && [cs[0]][..0] == [];
      assert Join([cs[0]]) == "/" + cs[0];
    } else {
      JoinStart(cs[..|cs| - 1]);
    }
  }

  lemma NullSurvives(user: nat, sub: string)
    ensures '\0' in Canonical(Requested(user, sub)) <==> '\0' in sub
  {
    DecimalIsPlain(user);
    CanonicalKeepsCharacters(Requested(user, sub), '\0');
  }

  lemma NoParentInCanonical(user: nat, sub: string)
    requires !Doubled(sub, '.')
    ensures ".." !in Split(Canonical(Requested(user, sub)))
  {
    NoDotsNoParent(sub);
    FilterAddsNothing(Split(sub), "..");
    RequestedComponents(user, sub);
    CanonicalKeepsComponents(Requested(user, sub));
    DecimalIsNotParent(user);
    NoParentAbove(Decimal(user), Components(sub));
  }

  lemma DecimalIsNotParent(n: nat)
    ensures Decimal(n) != ".."
  {
    DecimalIsPlain(n);
    assert ".."[0] == '.';
  }

  lemma NoParentAbove(d: string, cs: seq<string>)
    requires d != ".." && ".." !in cs
    ensures ".." !in [""] + (["home", d] + cs)
  {
    assert |"home"| == 4 && |".."| == 2;
  }

  /** Acceptance, exactly; and what an accepted path means. */
  lemma UserPathExactly(user: nat, sub: string)
    ensures UserPath(user, sub).Success? <==> !Doubled(sub, '.') && '\0' !in sub
    ensures Doubled(sub, '.') ==> UserPath(user, sub) == Failure(TraversalAttempt)
    ensures !Doubled(sub, '.') && '\0' in sub ==> UserPath(user, sub) == Failure(NullByte)
    ensures UserPath(user, sub).Success? ==>
      Components(UserPath(user, sub).value) == ["home", Decimal(user)] + Components(sub) &&
      ".." !in Components(UserPath(user, sub).value)
  {
    if !Doubled(sub, '.') {
      CanonicalUserPath(user, sub);
      NullSurvives(user, sub);
      NoParentInCanonical(user, sub);
      FilterAddsNothing(Split(Canonical(Requested(user, sub))), "..");
    }
  }

  /** `q` is `p` itself or lies below it. */
  predicate Within(p: string, q: string) { q == p || StartsWith(q, p + "/") }

  lemma WithinIsPrefix(p: string, q: string)
    requires Within(p, q)
    ensures Components(p) <= Components(q)
  {
    if q != p {
      var rest := q[|p| + 1..];
      assert q == p + "/" + rest;
      ComponentsAppend(p, rest);
    }
  }

  /** Paths built for different users never coincide, and neither lies below the other. */
  lemma UsersAreSeparate(user: nat, sub: string, other: nat, sub': string)
    requires user != other
    requires UserPath(user, sub).Success? && UserPath(other, sub').Success?
    ensures !Within(UserPath(user, sub).value, UserPath(other, sub').value)
  {
    UserPathExactly(user, sub);
    UserPathExactly(other, sub');
    if Decimal(user) == Decimal(other) {
      DecimalIsInjective(user, other);
      assert false;
    }
    TreesAreSeparate(UserPath(user, sub).value, UserPath(other, sub').value,
      Decimal(user), Decimal(other), Components(sub), Components(sub'));
  }

  lemma TreesAreSeparate(p: string, q: string, d: string, e: string, x: seq<string>, y: seq<string>)
    requires Components(p) == ["home", d] + x && Components(q) == ["home", e] + y && d != e
    ensures !Within(p, q)
  {
    if Within(p, q) {
      WithinIsPrefix(p, q);
      PrefixAgrees(Components(p), Components(q), 1);
      assert false;
    }
  }

  lemma PrefixAgrees(a: seq<string>, b: seq<string>, i: nat)
    requires a <= b && i < |a|
    ensures a[i] == b[i]
  {
  }

  // ---------------------------------------------------------------- the documented rules

  /** A numeral as user ids are printed: digits, without a leading zero unless it is zero itself. */
  predicate Numeral(d: string) {
    d != "" && AllDigits(d) && (|d| > 1 ==> d[0] != '0')
  }

  predicate AllDigits(d: string) { forall i :: 0 <= i < |d| ==> '0' <= d[i] <= '9' }

  function DigitValue(c: char): (v: nat)
    requires '0' <= c <= '9'
    ensures v < 10 && Digit(v) == c
  {
    (c - '0') as int
  }

  function ValueOf(d: string): (n: nat)
    requires AllDigits(d)
  {
    if d == "" then 0 else 10 * ValueOf(d[..|d| - 1]) + DigitValue(d[|d| - 1])
  }

  lemma {:induction false} NumeralIsPrinted(d: string)
    requires Numeral(d)
    ensures Decimal(ValueOf(d)) == d && (d[0] != '0' ==> ValueOf(d) > 0)
  {
    if |d| == 1 {
      OneDigit(d);
    } else {
      FrontIsNumeral(d);
      NumeralIsPrinted(d[..|d| - 1]);
      OneMoreDigit(d[..|d| - 1], d[|d| - 1]);
      assert d == d[..|d| - 1] + [d[|d| - 1]];
    }
  }

  lemma OneMoreDigit(front: string, c: char)
    requires AllDigits(front) && AllDigits(front + [c]) && '0' <= c <= '9'
    requires ValueOf(front) > 0 && Decimal(ValueOf(front)) == front
    ensures ValueOf(front + [c]) > 0 && Decimal(ValueOf(front + [c])) == front + [c]
  {
    ValueSnoc(front, c);
    PrintedWithDigit(ValueOf(front), DigitValue(c));
  }

  lemma ValueSnoc(front: string, c: char)
    requires AllDigits(front) && AllDigits(front + [c]) && '0' <= c <= '9'
    ensures ValueOf(front + [c]) == 10 * ValueOf(front) + DigitValue(c)
  {
    assert (front + [c])[..|front|] == front;
  }

  lemma OneDigit(d: string)
    requires Numeral(d) && |d| == 1
    ensures Decimal(ValueOf(d)) == d && (d[0] != '0' ==> ValueOf(d) > 0)
  {
    assert d[..0] == "" && d == [d[0]];
    assert ValueOf(d) == DigitValue(d[0]);
  }

  lemma FrontIsNumeral(d: string)
    requires Numeral(d) && |d| > 1
    ensures Numeral(d[..|d| - 1]) && d[..|d| - 1][0] == d[0] != '0'
  {
  }

  lemma PrintedWithDigit(n: nat, k: nat)
    requires n > 0 && k < 10
    ensures Decimal(10 * n + k) == Decimal(n) + [Digit(k)]
  {
    assert (10 * n + k) / 10 == n && (10 * n + k) % 10 == k;
  }

  lemma {:induction false} PrintedIsNumeral(n: nat)
    ensures Numeral(Decimal(n)) && (n > 0 ==> Decimal(n)[0] != '0')
  {
    if n >= 10 { PrintedIsNumeral(n / 10); }
  }

  /** The numerals are exactly the printed numbers. */
  lemma NumeralExactly(d: string)
    ensures Numeral(d) <==> exists n: nat :: Decimal(n) == d
  {
    if Numeral(d) {
      NumeralIsPrinted(d);
    }
    if n: nat :| Decimal(n) == d {
      PrintedIsNumeral(n);
    }
  }

  function HomeOf(d: string): string { "/home/" + d + "/" }

  /** What the module's documentation demands of a path. */
  ghost predicate Documented(p: string) {
    && StartsWith(p, "/") && ".." !in Split(p) && "." !in Split(p)
    && !Doubled(p, '/') && !HasTrailingSlash(p) && '\0' !in p
    && (StartsWith(p, "/users/") || InUserDirectory(p))
  }

  ghost predicate InUserDirectory(p: string) {
    exists n: nat :: StartsWith(p, HomeOf(Decimal(n)))
  }

  lemma {:induction false} JoinStartTwo(cs: seq<string>)
    requires |cs| >= 3
    ensures StartsWith(Join(cs), "/" + cs[0] + "/" + cs[1] + "/")
  {
    if |cs| == 3 {
      assert cs[..2][..1] == [cs[0]] && [cs[0]][..0] == [];
      assert Join([cs[0]]) == "/" + cs[0];
      assert Join(cs[..2]) == "/" + cs[0] + "/" + cs[1];
    } else {
      JoinStartTwo(cs[..|cs| - 1]);
    }
  }

  lemma TwoThenOne<T>(a: T, b: T, c: T, rest: seq<T>)
    ensures [a, b] + ([c] + rest) == [a, b, c] + rest
  {
  }

  lemma SplitInHome(d: string, rest: string)
    requires Plain(d)
    ensures Split(HomeOf(d) + rest) == ["", "home", d] + Split(rest)
  {
    HomeThen(d, rest);
    UnderHome(d + "/" + rest);
    SplitAppend(d, rest);
    SplitPlain(d);
    TwoThenOne("", "home", d, Split(rest));
  }

  /** A canonical path lies in a given home directory exactly when its first two components say so and something
      follows. */
  lemma InHomeExactly(p: string, d: string)
    requires Canonical(p) == p && Components(p) != [] && Components(p)[0] == "home" && Plain(d) && Kept(d)
    ensures StartsWith(p, HomeOf(d)) <==> |Components(p)| >= 3 && Components(p)[1] == d
  {
    if StartsWith(p, HomeOf(d)) {
      ComponentsInHome(p, d);
    }
    if |Components(p)| >= 3 && Components(p)[1] == d {
      StartsInHome(Components(p), d);
    }
  }

  lemma ComponentsInHome(p: string, d: string)
    requires Canonical(p) == p && Components(p) != [] && Plain(d) && StartsWith(p, HomeOf(d))
    ensures |Components(p)| >= 3 && Components(p)[1] == d
  {
    var rest := p[|HomeOf(d)|..];
    assert p == HomeOf(d) + rest;
    SplitInHome(d, rest);
    CanonicalKeepsComponents(p);
    ThirdComponent(Components(p), d, Split(rest));
  }

  lemma StartsInHome(cs: seq<string>, d: string)
    requires |cs| >= 3 && cs[0] == "home" && cs[1] == d
    ensures StartsWith(Join(cs), HomeOf(d))
  {
    JoinStartTwo(cs);
    HomePrefix(cs[0], d);
  }

  lemma HomePrefix(base: string, d: string)
    requires base == "home"
    ensures "/" + base + "/" + d + "/" == HomeOf(d)
  {
    assert "/" + base + "/" == "/home/";
  }

  lemma ThirdComponent(cs: seq<string>, d: string, rest: seq<string>)
    requires [""] + cs == ["", "home", d] + rest && rest != []
    ensures |cs| >= 3 && cs[1] == d
  {
    assert ([""] + cs)[2] == d;
  }

  lemma InSomeHomeExactly(p: string)
    requires Canonical(p) == p && Components(p) != [] && Components(p)[0] == "home"
    ensures InUserDirectory(p) <==> |Components(p)| >= 3 && Numeral(Components(p)[1])
  {
    if n: nat :| StartsWith(p, HomeOf(Decimal(n))) {
      DecimalIsKept(n);
      InHomeExactly(p, Decimal(n));
      PrintedIsNumeral(n);
    }
    if |Components(p)| >= 3 && Numeral(Components(p)[1]) {
      var n := ValueOf(Components(p)[1]);
      NumeralIsPrinted(Components(p)[1]);
      DecimalIsKept(n);
      InHomeExactly(p, Decimal(n));
    }
  }

  lemma DecimalIsKept(n: nat)
    ensures Plain(Decimal(n)) && Kept(Decimal(n))
  {
    DecimalIsPlain(n);
    assert "."[0] == '.';
  }

  lemma BaseOfAccepted(p: string)
    requires Verdict(p) == None
    ensures Components(p) != []
    ensures Components(p)[0] == "users" <==> StartsWith(p, "/users/")
    ensures Components(p)[0] == "home" <==> !StartsWith(p, "/users/")
  {
    if StartsWith(p, "/home/") {
      assert p == "/home/" + p[6..];
      UnderHome(p[6..]);
      NotUsers(p);
    } else {
      assert p == "/users/" + p[7..];
      UnderUsers(p[7..]);
    }
    assert |"home"| == 4 && |"users"| == 5;
  }

  lemma NotUsers(p: string)
    requires StartsWith(p, "/home/")
    ensures !StartsWith(p, "/users/")
  {
    assert p[1] == "/home/"[1] == 'h' && "/users/"[1] == 'u';
  }

  /** Exactly which accepted paths meet the documented rules: no dot component, no trailing slash, and under `home` a
      numeral and something below it. */
  lemma DocumentedExactly(p: string)
    requires Verdict(p) == None
    ensures Components(p) != []
    ensures Documented(p) <==>
      "." !in Split(p) && !HasTrailingSlash(p) &&
      (Components(p)[0] == "home" ==> |Components(p)| >= 3 && Numeral(Components(p)[1]))
  {
    BaseOfAccepted(p);
    DocumentedOfAccepted(p);
    if "." !in Split(p) && !HasTrailingSlash(p) {
      AcceptedIsCanonicalExactly(p);
      if Components(p)[0] == "home" {
        InSomeHomeExactly(p);
      } else {
        assert StartsWith(p, "/users/");
      }
    }
  }

  /** What acceptance leaves open of the documented rules. */
  lemma DocumentedOfAccepted(p: string)
    requires Verdict(p) == None
    ensures Documented(p) <==>
      "." !in Split(p) && !HasTrailingSlash(p) && (StartsWith(p, "/users/") || InUserDirectory(p))
  {
  }

  /** Three accepted paths that the documented rules forbid: a dot component, a trailing slash, no user directory. */
  lemma CodeAcceptsMoreThanDocumented()
    ensures Verdict("/home/.") == None && "." in Split("/home/.") && !Documented("/home/.")
    ensures Verdict("/home/") == None && HasTrailingSlash("/home/") && !Documented("/home/")
    ensures Verdict("/home/x") == None && Canonical("/home/x") == "/home/x" && !Documented("/home/x")
  {
    HomeFileAccepted(".");
    HomeFileAccepted("");
    HomeFileAccepted("x");
    assert "/home/" + "." == "/home/." && "/home/" + "" == "/home/" && "/home/" + "x" == "/home/x";
    NoUserDirectory("x");
  }

  /** A file directly under `/home/` is canonical and in no user's directory. */
  lemma NoUserDirectory(name: string)
    requires Plain(name) && Kept(name) && '\0' !in name && name != ".."
    ensures Canonical("/home/" + name) == "/home/" + name && !Documented("/home/" + name)
  {
    HomeFileAccepted(name);
    UnderHome(name);
    OneComponent(name);
    AbsoluteSplit("/home/" + name);
    assert ["home"] + [name] == ["home", name] && ["", "home", name][1..] == ["home", name];
    DocumentedExactly("/home/" + name);
  }

  // ---------------------------------------------------------------- the code

  method CanonicalizePath(path: string) returns (result: string)
    ensures result == Canonical(path)
  {
    if path == "" {
      assert Split(path) == [""] && Filter([""]) == [] by { OneKept(""); }
      return "/";
    }
    var parts := Split(path);
    var components: seq<string> := [];
    for i := 0 to |parts|
      invariant components == Filter(parts[..i])
    {
      assert parts[..i + 1][..i] == parts[..i];
      if parts[i] != "" && parts[i] != "." {
        components := components + [parts[i]];
      }
    }
    assert parts[..|parts|] == parts;
    if components == [] {
      return "/";
    }
    result := "";
    for i := 0 to |components|
      invariant result == Join(components[..i])
    {
      assert components[..i + 1][..i] == components[..i];
      result := result + "/" + components[i];
    }
    assert components[..|components|] == components;
  }

  method ValidatePath(path: string) returns (error: Option<PathError>)
    ensures error == Verdict(path)
  {
    if path == "" { return Some(Empty); }
    if '\0' in path { return Some(NullByte); }
    if !StartsWith(path, "/") { return Some(NotAbsolute); }
    if Doubled(path, '/') { return Some(ConsecutiveSlashes); }
    var parts := Split(path);
    for i := 0 to |parts|
      invariant ".." !in parts[..i]
    {
      if parts[i] == ".." { return Some(TraversalAttempt); }
      assert parts[..i + 1] == parts[..i] + [parts[i]];
    }
    assert parts[..|parts|] == parts;
    if !Allowed(path) { return Some(OutsideAllowed); }
    return None;
  }

  method BuildUserPath(user: nat, sub: string) returns (r: Result<string, PathError>)
    ensures r == UserPath(user, sub)
    ensures r.Success? <==> !Doubled(sub, '.') && '\0' !in sub
    ensures r.Success? ==> Components(r.value) == ["home", Decimal(user)] + Components(sub)
  {
    UserPathExactly(user, sub);
    if Doubled(sub, '.') { return Failure(TraversalAttempt); }
    var path := if StartsWith(sub, "/") then "/home/" + Decimal(user) + sub else "/home/" + Decimal(user) + "/" + sub;
    var canonical := CanonicalizePath(path);
    var error := ValidatePath(canonical);
    if error.Some? { return Failure(error.value); }
    return Success(canonical);
  }
}
