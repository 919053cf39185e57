/** The user a request is made by, as the authenticating proxy describes it: the headers whose
    name starts with `X-Auth-`, keyed by the rest of the name. */
module Auth {
  import opened Wrappers
  import opened Strings
  import opened Dicts

  const AUTH_PREFIX := "X-Auth-"

  predicate IsAuthHeader(name: string)
  {
    StartsWith(name, AUTH_PREFIX)
  }

  /** The header `name` is an auth header whose name without the prefix is `key`. */
  predicate StripsTo(name: string, key: string)
  {
    IsAuthHeader(name) && name[|AUTH_PREFIX|..] == key
  }

  /** The props the constructor collects from the headers `hs`, in order: each auth header
      stored under its stripped name, a later one replacing an earlier value. */
  function AuthProps(hs: seq<(string, string)>): Dict<string, string>
  {
    if hs == [] then []
    else
      var d := AuthProps(hs[..|hs| - 1]);
      var (name, value) := hs[|hs| - 1];
      if IsAuthHeader(name) then Put(d, name[|AUTH_PREFIX|..], value) else d
  }

  /** The collected props have unique keys; a key is present exactly when some auth header
      strips to it, and then holds the value of the last such header. */
  lemma {:induction false} AuthPropsLookup(hs: seq<(string, string)>, key: string)
    ensures UniqueKeys(AuthProps(hs))
    ensures Get(AuthProps(hs), key).None? <==> forall i :: 0 <= i < |hs| ==> !StripsTo(hs[i].0, key)
    ensures forall i ::
      (0 <= i < |hs| && StripsTo(hs[i].0, key) && forall j :: i < j < |hs| ==> !StripsTo(hs[j].0, key))
      ==> Get(AuthProps(hs), key) == Some(hs[i].1)
  {
    if hs != [] {
      var n := |hs| - 1;
      var init := hs[..n];
      var (name, value) := hs[n];
      var d := AuthProps(init);
      AuthPropsLookup(init, key);
      assert forall i :: 0 <= i < n ==> init[i] == hs[i];
      if IsAuthHeader(name) {
        PutKeys(d, name[|AUTH_PREFIX|..], value);
        PutGet(d, name[|AUTH_PREFIX|..], value, key);
      }
      if StripsTo(name, key) {
        assert Get(AuthProps(hs), key) == Some(value);
        forall i | 0 <= i < |hs| && StripsTo(hs[i].0, key) && forall j :: i < j < |hs| ==> !StripsTo(hs[j].0, key)
          ensures i == n
        {
        }
      } else {
        assert Get(AuthProps(hs), key) == Get(d, key);
        forall i | 0 <= i < |hs| && StripsTo(hs[i].0, key) && forall j :: i < j < |hs| ==> !StripsTo(hs[j].0, key)
          ensures i < n && forall j :: i < j < n ==> !StripsTo(init[j].0, key)
        {
        }
      }
    }
  }

  /** A header without the prefix, such as `X-prop3`, contributes nothing. */
  lemma OtherHeaderIgnored(hs: seq<(string, string)>, name: string, value: string)
    requires !IsAuthHeader(name)
    ensures AuthProps(hs + [(name, value)]) == AuthProps(hs)
  {
    assert (hs + [(name, value)])[..|hs|] == hs;
  }

  /** One `k='v'` entry of the string form. */
  function EntryText(k: string, v: string): string
  {
    k + "='" + v + "'"
  }

  /** One entry per prop, in insertion order. */
  function Entries(d: Dict<string, string>): (es: seq<string>)
    ensures |es| == |d|
    ensures forall i :: 0 <= i < |d| ==> es[i] == EntryText(d[i].0, d[i].1)
  {
    if d == [] then [] else Entries(d[..|d| - 1]) + [EntryText(d[|d| - 1].0, d[|d| - 1].1)]
  }

  /** `__str__`: `USER: ` and the entries in insertion order, separated by `, `. */
  function UserText(d: Dict<string, string>): string
  {
    "USER: " + Join(", ", Entries(d))
  }

  /** The string form is `USER: ` alone exactly when there are no props; each further prop
      appends its entry after a separator. */
  lemma UserTextShape(d: Dict<string, string>, k: string, v: string)
    ensures StartsWith(UserText(d), "USER: ")
    ensures UserText(d) == "USER: " <==> d == []
    ensures UserText([(k, v)]) == "USER: " + EntryText(k, v)
    ensures d != [] ==> UserText(d + [(k, v)]) == UserText(d) + ", " + EntryText(k, v)
  {
    if d != [] {
      assert |Join(", ", Entries(d))| >= |EntryText(d[0].0, d[0].1)|;
      assert (d + [(k, v)])[..|d|] == d;
      assert Entries(d + [(k, v)]) == Entries(d) + [EntryText(k, v)];
      JoinAppend(", ", Entries(d), EntryText(k, v));
    }
    assert Entries([(k, v)]) == [EntryText(k, v)];
  }

  class RequestUser {
    var props: Dict<string, string>

    /** Collects the auth headers of the request, given as its header list in order. */
    constructor (headers: seq<(string, string)>)
      ensures props == AuthProps(headers)
    {
      props := [];
      new;
      var i := 0;
      while i < |headers|
        invariant 0 <= i <= |headers|
        invariant props == AuthProps(headers[..i])
      {
        assert headers[..i + 1][..i] == headers[..i];
        var (name, value) := headers[i];
        if StartsWith(name, AUTH_PREFIX) {
          props := Put(props, name[|AUTH_PREFIX|..], value);
        }
        i := i + 1;
      }
      assert headers[..i] == headers;
    }

    /** `USER: ` alone when there are no props; otherwise the form of all props but the
        last, followed by the last one's entry. */
    function ToString(): (s: string)
      reads this
      ensures StartsWith(s, "USER: ")
      ensures s == "USER: " <==> props == []
      ensures |props| == 1 ==> s == "USER: " + EntryText(props[0].0, props[0].1)
      ensures |props| > 1 ==> var n := |props| - 1;
        s == UserText(props[..n]) + ", " + EntryText(props[n].0, props[n].1)
    {
      var n := |props| - 1;
      UserTextShape(props, "", "");
      if |props| == 0 then UserText(props)
      else
        assert props == props[..n] + [(props[n].0, props[n].1)];
        UserTextShape(props[..n], props[n].0, props[n].1);
        UserText(props)
    }
  }

  /** The requests of the user's test: no headers at all, and two auth headers beside
      `X-prop3`. */
  lemma RequestUserExamples(p1: string, p2: string, v1: string, v2: string, other: string, v3: string)
    requires other == "X-prop3"
    requires p1 != p2
    ensures AuthProps([]) == [] && UserText([]) == "USER: "
    ensures AuthProps([(AUTH_PREFIX + p1, v1), (AUTH_PREFIX + p2, v2), (other, v3)]) == [(p1, v1), (p2, v2)]
    ensures UserText([(p1, v1), (p2, v2)]) == "USER: " + EntryText(p1, v1) + ", " + EntryText(p2, v2)
  {
    var hs := [(AUTH_PREFIX + p1, v1), (AUTH_PREFIX + p2, v2), (other, v3)];
    assert !IsAuthHeader(other) by {
      assert other[2] != AUTH_PREFIX[2];
    }
    assert hs[..2][..1] == hs[..1];
    assert hs[..1][..0] == [];
    assert (AUTH_PREFIX + p1)[|AUTH_PREFIX|..] == p1;
    assert (AUTH_PREFIX + p2)[|AUTH_PREFIX|..] == p2;
    assert AuthProps(hs[..1]) == [(p1, v1)];
    assert IndexOf([(p1, v1)], p2) == None;
    assert AuthProps(hs[..2]) == [(p1, v1), (p2, v2)];
    UserTextShape([(p1, v1)], p2, v2);
    UserTextShape([], p1, v1);
  }
}
