/** The route authorisation resolver run before every request: the request path is looked
    up in a fixed table of route patterns, the longest matching pattern alone decides which
    methods are allowed, and its role requirement decides who may pass. */
module Security {
  import opened Wrappers
  import opened Strings

  /* ---------------------------------------------------------------------------------
     Route patterns: the regular-expression subset the table uses, with `re.match`
     semantics (anchored at the start of the path, a prefix of the path may match).
     --------------------------------------------------------------------------------- */

  datatype CharClass = Literal(c: char) | AnyChar
  datatype Repeat = Once | Optional | ZeroOrMore | OneOrMore
  datatype Atom = Atom(cls: CharClass, rep: Repeat)

  /** `.` matches every character except a newline. */
  predicate Accepts(cls: CharClass, c: char)
  {
    match cls
    case Literal(x) => c == x
    case AnyChar => c != '\n'
  }

  predicate IsRepeatChar(c: char)
  {
    c == '?' || c == '*' || c == '+'
  }

  /** Characters with a regular-expression meaning outside the modelled subset. */
  predicate IsUnsupported(c: char)
  {
    c == '\\' || c == '(' || c == ')' || c == '[' || c == ']' || c == '{' || c == '}'
    || c == '|' || c == '^' || c == '$'
  }

  function RepeatOf(c: char): Repeat
    requires IsRepeatChar(c)
  {
    if c == '?' then Optional else if c == '*' then ZeroOrMore else OneOrMore
  }

  function ClassOf(c: char): CharClass
  {
    if c == '.' then AnyChar else Literal(c)
  }

  function Prepend(a: Atom, tail: Option<seq<Atom>>): Option<seq<Atom>>
  {
    match tail
    case None => None
    case Some(atoms) => Some([a] + atoms)
  }

  /** Compiles a pattern; None when it uses anything outside the subset (or a repeat with
      nothing to repeat). */
  function Compile(p: string): Option<seq<Atom>>
  {
    if p == [] then Some([])
    else if IsRepeatChar(p[0]) || IsUnsupported(p[0]) then None
    else if |p| >= 2 && IsRepeatChar(p[1]) then Prepend(Atom(ClassOf(p[0]), RepeatOf(p[1])), Compile(p[2..]))
    else Prepend(Atom(ClassOf(p[0]), Once), Compile(p[1..]))
  }

  /** Whether `atoms` match some prefix of `s` (the truth value of `re.match`). */
  predicate MatchPrefix(atoms: seq<Atom>, s: string)
    decreases |s|, |atoms|
  {
    if atoms == [] then true
    else
      var a, rest := atoms[0], atoms[1..];
      var step := |s| > 0 && Accepts(a.cls, s[0]);
      match a.rep
      case Once => step && MatchPrefix(rest, s[1..])
      case Optional => (step && MatchPrefix(rest, s[1..])) || MatchPrefix(rest, s)
      case ZeroOrMore => MatchPrefix(rest, s) || (step && MatchPrefix(atoms, s[1..]))
      case OneOrMore => step && MatchPrefix([Atom(a.cls, ZeroOrMore)] + rest, s[1..])
  }

  /** Reference semantics: whether `atoms` match all of `s`. */
  predicate FullMatch(atoms: seq<Atom>, s: string)
    decreases |s|, |atoms|
  {
    if atoms == [] then s == []
    else
      var a, rest := atoms[0], atoms[1..];
      var step := |s| > 0 && Accepts(a.cls, s[0]);
      match a.rep
      case Once => step && FullMatch(rest, s[1..])
      case Optional => (step && FullMatch(rest, s[1..])) || FullMatch(rest, s)
      case ZeroOrMore => FullMatch(rest, s) || (step && FullMatch(atoms, s[1..]))
      case OneOrMore => step && FullMatch([Atom(a.cls, ZeroOrMore)] + rest, s[1..])
  }

  /** `re.match(p, path)` is truthy. A pattern outside the subset never matches. */
  predicate Matches(p: string, path: string)
  {
    match Compile(p)
    case None => false
    case Some(atoms) => MatchPrefix(atoms, path)
  }

  /** A full match of a prefix of `s` is a prefix match of `s`. */
  lemma {:induction false} FullMatchPrefix(atoms: seq<Atom>, t: string, s: string)
    requires FullMatch(atoms, t) && StartsWith(s, t)
    ensures MatchPrefix(atoms, s)
    decreases |t|, |atoms|
  {
    if atoms != [] {
      var a, rest := atoms[0], atoms[1..];
      if |t| > 0 {
        assert s[0] == t[0];
        assert s[1..][..|t| - 1] == t[1..];
      }
      match a.rep
      case Once =>
        FullMatchPrefix(rest, t[1..], s[1..]);
      case Optional =>
        if |t| > 0 && Accepts(a.cls, t[0]) && FullMatch(rest, t[1..]) {
          FullMatchPrefix(rest, t[1..], s[1..]);
        } else {
          FullMatchPrefix(rest, t, s);
        }
      case ZeroOrMore =>
        if FullMatch(rest, t) {
          FullMatchPrefix(rest, t, s);
        } else {
          FullMatchPrefix(atoms, t[1..], s[1..]);
        }
      case OneOrMore =>
        FullMatchPrefix([Atom(a.cls, ZeroOrMore)] + rest, t[1..], s[1..]);
    }
  }

  /** A prefix match ends somewhere: the length of a prefix of `s` that matches in full. */
  lemma {:induction false} PrefixMatchEnd(atoms: seq<Atom>, s: string) returns (k: nat)
    requires MatchPrefix(atoms, s)
    ensures k <= |s| && FullMatch(atoms, s[..k])
    decreases |s|, |atoms|
  {
    if atoms == [] {
      k := 0;
    } else {
      var a, rest := atoms[0], atoms[1..];
      var step := |s| > 0 && Accepts(a.cls, s[0]);
      var next := rest;
      var skip := false;
      match a.rep {
        case Once =>
        case Optional =>
          skip := !(step && MatchPrefix(rest, s[1..]));
        case ZeroOrMore =>
          skip := MatchPrefix(rest, s);
          if !skip { next := atoms; }
        case OneOrMore =>
          next := [Atom(a.cls, ZeroOrMore)] + rest;
      }
      if skip {
        k := PrefixMatchEnd(rest, s);
      } else {
        var k' := PrefixMatchEnd(next, s[1..]);
        k := k' + 1;
        assert s[..k][0] == s[0];
        assert s[..k][1..] == s[1..][..k'];
      }
    }
  }

  /** `re.match` succeeds exactly when the compiled pattern matches some prefix of the path
      in full. */
  lemma MatchesMeansSomePrefix(p: string, path: string)
    ensures Matches(p, path) <==>
      Compile(p).Some? && exists k :: 0 <= k <= |path| && FullMatch(Compile(p).value, path[..k])
  {
    if Compile(p).Some? {
      var atoms := Compile(p).value;
      if Matches(p, path) {
        var k := PrefixMatchEnd(atoms, path);
      }
      if exists k :: 0 <= k <= |path| && FullMatch(atoms, path[..k]) {
        var k :| 0 <= k <= |path| && FullMatch(atoms, path[..k]);
        FullMatchPrefix(atoms, path[..k], path);
      }
    }
  }

  /* ---------------------------------------------------------------------------------
     Literal text inside a pattern.
     --------------------------------------------------------------------------------- */

  /** Text in which no character has a regular-expression meaning. */
  predicate Plain(t: string)
  {
    forall c :: c in t ==> !IsRepeatChar(c) && !IsUnsupported(c) && c != '.'
  }

  function LiteralAtoms(t: string): (r: seq<Atom>)
    ensures |r| == |t|
  {
    if t == [] then [] else [Atom(Literal(t[0]), Once)] + LiteralAtoms(t[1..])
  }

  function Then(atoms: seq<Atom>, tail: Option<seq<Atom>>): Option<seq<Atom>>
  {
    match tail
    case None => None
    case Some(more) => Some(atoms + more)
  }

  /** Plain text compiles to one literal atom per character, provided the text after it
      does not start with a repeat. */
  lemma {:induction false} CompilePlain(t: string, q: string)
    requires Plain(t)
    requires q == [] || !IsRepeatChar(q[0])
    ensures Compile(t + q) == Then(LiteralAtoms(t), Compile(q))
  {
    if t == [] {
      assert t + q == q;
      match Compile(q)
      case None =>
      case Some(more) => assert LiteralAtoms(t) + more == more;
    } else {
      var p := t + q;
      assert p[0] == t[0] && p[1..] == t[1..] + q;
      assert t[0] in t;
      assert |p| >= 2 ==> !IsRepeatChar(p[1]) by {
        if |p| >= 2 {
          if |t| >= 2 { assert p[1] == t[1]; assert t[1] in t; }
          else { assert p[1] == q[0]; }
        }
      }
      assert Plain(t[1..]) by {
        forall c | c in t[1..] ensures c in t { }
      }
      CompilePlain(t[1..], q);
      match Compile(q)
      case None =>
      case Some(more) =>
        assert [Atom(Literal(t[0]), Once)] + (LiteralAtoms(t[1..]) + more)
            == LiteralAtoms(t) + more;
    }
  }

  /** Literal atoms match exactly the paths that start with their text. */
  lemma {:induction false} MatchLiteral(t: string, rest: seq<Atom>, s: string)
    ensures MatchPrefix(LiteralAtoms(t) + rest, s) <==>
      StartsWith(s, t) && MatchPrefix(rest, s[|t|..])
  {
    if t == [] {
      assert LiteralAtoms(t) + rest == rest;
    } else {
      var atoms := LiteralAtoms(t) + rest;
      assert atoms[0] == Atom(Literal(t[0]), Once);
      assert atoms[1..] == LiteralAtoms(t[1..]) + rest;
      if |s| > 0 && s[0] == t[0] {
        MatchLiteral(t[1..], rest, s[1..]);
        assert StartsWith(s, t) <==> StartsWith(s[1..], t[1..]) by {
          if |t| <= |s| {
            assert s[..|t|] == [s[0]] + s[1..][..|t| - 1];
            assert t == [t[0]] + t[1..];
          }
        }
      }
    }
  }

  lemma PlainAppend(a: string, b: string)
    requires Plain(a) && Plain(b)
    ensures Plain(a + b)
  {
  }

  /** A pattern `t` + `c?` matches exactly the paths starting with `t`. */
  lemma MatchesOptionalEnd(t: string, c: char, path: string)
    requires Plain(t + [c])
    ensures Matches(t + [c, '?'], path) <==> StartsWith(path, t)
  {
    assert c in t + [c];
    assert Plain(t) by { forall x | x in t ensures x in t + [c] { } }
    CompilePlain(t, [c, '?']);
    assert Compile([c, '?']).Some? && Compile([c, '?']).value == [Atom(Literal(c), Optional)];
    MatchLiteral(t, [Atom(Literal(c), Optional)], path);
  }

  /** A pattern `t` + `.*` matches exactly the paths starting with `t`. */
  lemma MatchesStarEnd(t: string, path: string)
    requires Plain(t)
    ensures Matches(t + ".*", path) <==> StartsWith(path, t)
  {
    CompilePlain(t, ".*");
    assert Compile(".*").Some? && Compile(".*").value == [Atom(AnyChar, ZeroOrMore)];
    MatchLiteral(t, [Atom(AnyChar, ZeroOrMore)], path);
  }

  /** A pattern `t` + `.+` needs one more character, not a newline, after `t`. */
  lemma MatchesPlusEnd(t: string, path: string)
    requires Plain(t)
    ensures Matches(t + ".+", path) <==> StartsWith(path, t) && |path| > |t| && path[|t|] != '\n'
  {
    CompilePlain(t, ".+");
    assert Compile(".+").Some? && Compile(".+").value == [Atom(AnyChar, OneOrMore)];
    MatchLiteral(t, [Atom(AnyChar, OneOrMore)], path);
    if StartsWith(path, t) {
      var s := path[|t|..];
      assert MatchPrefix([Atom(AnyChar, OneOrMore)], s) <==> |s| > 0 && s[0] != '\n' by {
        if |s| > 0 && s[0] != '\n' {
          assert MatchPrefix([Atom(AnyChar, ZeroOrMore)] + [], s[1..]);
        }
      }
    }
  }

  /** A pattern `t` + `.` + `u` + `.*`: `t`, any character but a newline, then `u`. */
  lemma MatchesWildcardInside(t: string, u: string, path: string)
    requires Plain(t) && Plain(u)
    ensures Matches(t + "." + u + ".*", path) <==>
      StartsWith(path, t) && |path| > |t| && path[|t|] != '\n' && StartsWith(path[|t| + 1..], u)
  {
    var tail := "." + u + ".*";
    assert t + "." + u + ".*" == t + tail;
    CompilePlain(t, tail);
    CompilePlain(u, ".*");
    assert Compile(".*").Some? && Compile(".*").value == [Atom(AnyChar, ZeroOrMore)];
    assert tail[1..] == u + ".*";
    assert |tail| >= 2 ==> !IsRepeatChar(tail[1]) by {
      if |u| > 0 { assert tail[1] == u[0]; assert u[0] in u; }
    }
    var rest := LiteralAtoms(u) + [Atom(AnyChar, ZeroOrMore)];
    assert Compile(tail) == Some([Atom(AnyChar, Once)] + rest);
    MatchLiteral(t, [Atom(AnyChar, Once)] + rest, path);
    if StartsWith(path, t) && |path| > |t| && path[|t|] != '\n' {
      var s := path[|t|..];
      assert ([Atom(AnyChar, Once)] + rest)[1..] == rest;
      assert s[1..] == path[|t| + 1..];
      MatchLiteral(u, [Atom(AnyChar, ZeroOrMore)], s[1..]);
    }
  }

  /* ---------------------------------------------------------------------------------
     The permission table and the decision.
     --------------------------------------------------------------------------------- */

  /** Either the public sentinel or the list of roles of which the caller needs one. */
  datatype Roles = Public | AnyOf(required: seq<string>)

  datatype Permission = Permission(methods: seq<string>, roles: Roles)

  /** One entry of the table: a pattern (the dict key) and what it permits. */
  datatype Route = Route(pattern: string, permission: Permission)

  /** The HTTP layer's answer on denial. */
  datatype Reply = Reply(body: string, status: int)

  const FORBIDDEN := Reply("Forbidden", 403)

  const API_BASE_PATH := "/gob_management"
  const PUBLIC_API_BASE_PATH := "/gob_management/public"

  /** Role names defined by the platform's shared library. */
  const GOB_ADMIN := "gob_admin"
  const GOB_ADMIN_R := "gob_admin_r"

  /** The route patterns in the table's insertion order. */
  const PERMISSIONS: seq<Route> := [
    Route("/status/health/?", Permission(["GET"], Public)),
    Route(API_BASE_PATH + "/job/?", Permission(["POST"], AnyOf([GOB_ADMIN]))),
    Route(API_BASE_PATH + "/job/.+", Permission(["DELETE"], AnyOf([GOB_ADMIN]))),
    Route(API_BASE_PATH + "/socket.io/.*", Permission(["GET", "POST"], Public)),
    Route(PUBLIC_API_BASE_PATH + "/state/.*", Permission(["GET"], Public)),
    Route(API_BASE_PATH + "/queue/.*", Permission(["DELETE"], AnyOf([GOB_ADMIN]))),
    Route(PUBLIC_API_BASE_PATH + "/catalogs/?", Permission(["GET"], Public)),
    Route(PUBLIC_API_BASE_PATH + "/queues/?", Permission(["GET"], Public)),
    Route(PUBLIC_API_BASE_PATH + "/graphql/?", Permission(["GET", "POST"], Public)),
    Route("/.*", Permission(["GET", "POST"], AnyOf([GOB_ADMIN, GOB_ADMIN_R])))
  ]

  /** The routes whose pattern matches `path`, in table order. */
  function MatchingRoutes(table: seq<Route>, path: string): (r: seq<Route>)
    ensures forall x :: x in r ==> x in table && Matches(x.pattern, path)
    ensures (exists i :: 0 <= i < |table| && Matches(table[i].pattern, path)) <==> r != []
  {
    if table == [] then []
    else if Matches(table[0].pattern, path) then [table[0]] + MatchingRoutes(table[1..], path)
    else
      var r := MatchingRoutes(table[1..], path);
      assert (exists i :: 0 <= i < |table| && Matches(table[i].pattern, path)) ==> r != [] by {
        if exists i :: 0 <= i < |table| && Matches(table[i].pattern, path) {
          var i :| 0 <= i < |table| && Matches(table[i].pattern, path);
          assert i != 0 && table[1..][i - 1] == table[i];
        }
      }
      r
  }

  /** The first route of greatest pattern length (what the first element of a stable sort
      by descending length is). */
  function Longest(routes: seq<Route>): (r: Route)
    requires routes != []
    ensures r in routes
    ensures forall j :: 0 <= j < |routes| ==> |routes[j].pattern| <= |r.pattern|
  {
    if |routes| == 1 then routes[0]
    else
      var r := Longest(routes[1..]);
      if |routes[0].pattern| >= |r.pattern| then routes[0] else r
  }

  /** Route `i` is the one the resolver consults for `path`: it matches, no matching route
      has a longer pattern, and every matching route before it has a shorter one. */
  ghost predicate Selected(table: seq<Route>, path: string, i: int)
  {
    && 0 <= i < |table|
    && Matches(table[i].pattern, path)
    && (forall j :: 0 <= j < |table| && Matches(table[j].pattern, path) ==>
          |table[j].pattern| <= |table[i].pattern|)
    && (forall j :: 0 <= j < i && Matches(table[j].pattern, path) ==>
          |table[j].pattern| < |table[i].pattern|)
  }

  /** At most one route is selected. */
  lemma SelectedUnique(table: seq<Route>, path: string, i: int, j: int)
    requires Selected(table, path, i) && Selected(table, path, j)
    ensures i == j
  {
  }

  /** Longest-match precedence: the chosen route is the selected one. */
  lemma {:induction false} LongestIsSelected(table: seq<Route>, path: string)
    requires MatchingRoutes(table, path) != []
    ensures exists i :: Selected(table, path, i) && table[i] == Longest(MatchingRoutes(table, path))
  {
    var ms := MatchingRoutes(table, path);
    var rest := MatchingRoutes(table[1..], path);
    if Matches(table[0].pattern, path) {
      if rest == [] {
        assert ms == [table[0]];
        assert forall j :: 1 <= j < |table| ==> !Matches(table[j].pattern, path) by {
          forall j | 1 <= j < |table| ensures !Matches(table[j].pattern, path) {
            assert table[1..][j - 1] == table[j];
          }
        }
        assert Selected(table, path, 0);
      } else {
        LongestIsSelected(table[1..], path);
        var k :| Selected(table[1..], path, k) && table[1..][k] == Longest(rest);
        assert ms[1..] == rest;
        if |table[0].pattern| >= |Longest(rest).pattern| {
          SelectedFirst(table, path, k);
        } else {
          SelectedAfterFirst(table, path, k);
        }
      }
    } else {
      assert ms == rest;
      LongestIsSelected(table[1..], path);
      var k :| Selected(table[1..], path, k) && table[1..][k] == Longest(rest);
      SelectedAfterFirst(table, path, k);
    }
  }

  /** The first route is selected when it matches and is no shorter than the route selected
      among the others. */
  lemma SelectedFirst(table: seq<Route>, path: string, k: int)
    requires table != [] && Matches(table[0].pattern, path)
    requires Selected(table[1..], path, k) && |table[1..][k].pattern| <= |table[0].pattern|
    ensures Selected(table, path, 0)
  {
    forall j | 1 <= j < |table| && Matches(table[j].pattern, path)
      ensures |table[j].pattern| <= |table[0].pattern|
    {
      assert table[1..][j - 1] == table[j];
    }
  }

  /** The route selected among the others stays selected when the first route does not
      match or is shorter. */
  lemma SelectedAfterFirst(table: seq<Route>, path: string, k: int)
    requires table != [] && Selected(table[1..], path, k)
    requires Matches(table[0].pattern, path) ==> |table[0].pattern| < |table[1..][k].pattern|
    ensures Selected(table, path, k + 1)
  {
    assert table[1..][k] == table[k + 1];
    forall j | 0 <= j < |table| && Matches(table[j].pattern, path)
      ensures |table[j].pattern| <= |table[k + 1].pattern|
      ensures j < k + 1 ==> |table[j].pattern| < |table[k + 1].pattern|
    {
      if j > 0 { assert table[1..][j - 1] == table[j]; }
    }
  }

  /** `_match_path`: the longest matching route's permission, unless that route does not
      list `verb`; no shorter route is consulted. */
  function MatchPath(table: seq<Route>, path: string, verb: string): (r: Option<Permission>)
    ensures r.Some? <==> exists i :: Selected(table, path, i) && verb in table[i].permission.methods
    ensures forall i :: Selected(table, path, i) && r.Some? ==> r.value == table[i].permission
  {
    var ms := MatchingRoutes(table, path);
    if ms == [] then
      None
    else
      LongestIsSelected(table, path);
      var m := Longest(ms).permission;
      assert forall i, j :: Selected(table, path, i) && Selected(table, path, j) ==> i == j by {
        forall i, j | Selected(table, path, i) && Selected(table, path, j) ensures i == j {
          SelectedUnique(table, path, i, j);
        }
      }
      if verb in m.methods then Some(m) else None
  }

  /** Once route `i` is selected, its entry alone decides: `verb` must be among its methods,
      whatever shorter matching routes would allow. */
  lemma MatchPathSelected(table: seq<Route>, path: string, verb: string, i: int)
    requires Selected(table, path, i)
    ensures MatchPath(table, path, verb) ==
      if verb in table[i].permission.methods then Some(table[i].permission) else None
  {
    forall k | Selected(table, path, k) ensures k == i {
      SelectedUnique(table, path, i, k);
    }
  }

  /** A path no pattern matches is looked up to nothing. */
  lemma MatchPathNoRoute(table: seq<Route>, path: string, verb: string)
    requires forall i :: 0 <= i < |table| ==> !Matches(table[i].pattern, path)
    ensures MatchPath(table, path, verb) == None
  {
  }

  /** `[r for r in user_roles if r in required]` */
  function MatchedRoles(userRoles: seq<string>, required: seq<string>): (r: seq<string>)
    ensures forall x :: x in r <==> x in userRoles && x in required
  {
    if userRoles == [] then []
    else
      var rest := MatchedRoles(userRoles[1..], required);
      assert forall x :: x in userRoles <==> x == userRoles[0] || x in userRoles[1..];
      if userRoles[0] in required then [userRoles[0]] + rest else rest
  }

  /** `_is_allowed_access`: public routes admit everyone, other routes need a shared role. */
  function IsAllowedAccess(userRoles: seq<string>, p: Permission): (r: bool)
    ensures r <==> p.roles.Public? || exists x :: x in userRoles && x in p.roles.required
  {
    match p.roles
    case Public => true
    case AnyOf(required) =>
      var m := MatchedRoles(userRoles, required);
      assert m != [] <==> exists x :: x in userRoles && x in required by {
        if m != [] { assert m[0] in m; }
      }
      |m| > 0
  }

  /** `_before_request`: None lets the request through; otherwise the fixed denial. */
  function BeforeRequest(table: seq<Route>, verb: string, path: string, userRoles: seq<string>): (r: Option<Reply>)
    ensures r == None || r == Some(FORBIDDEN)
    ensures r == None <==>
      verb == "OPTIONS" ||
      exists i :: Selected(table, path, i) && verb in table[i].permission.methods
                  && IsAllowedAccess(userRoles, table[i].permission)
  {
    if verb == "OPTIONS" then None
    else
      var m := MatchPath(table, path, verb);
      if m.None? || !IsAllowedAccess(userRoles, m.value) then Some(FORBIDDEN) else None
  }

  /** A request other than `OPTIONS` whose path no pattern matches is refused. */
  lemma NoRouteForbidden(table: seq<Route>, verb: string, path: string, userRoles: seq<string>)
    requires verb != "OPTIONS"
    requires forall i :: 0 <= i < |table| ==> !Matches(table[i].pattern, path)
    ensures BeforeRequest(table, verb, path, userRoles) == Some(FORBIDDEN)
  {
    MatchPathNoRoute(table, path, verb);
  }
}
