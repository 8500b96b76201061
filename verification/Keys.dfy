/** The strings that name rate-limit counters. */
module Keys {
  function UserKey(ws: string, user: string): string {
    "user:" + ws + ":" + user
  }

  function WorkspaceKey(ws: string): string {
    "workspace:" + ws
  }

  function ClientKey(client: string): string {
    "client:" + client
  }

  function ModelKey(ws: string, alias: string): string {
    "model:" + ws + ":" + alias
  }

  predicate NoColon(s: string) {
    ':' !in s
  }

  lemma SameHead<T>(pre: seq<T>, x: seq<T>, y: seq<T>)
    requires pre + x == pre + y
    ensures x == y
  {
    assert (pre + x)[|pre|..] == x;
    assert (pre + y)[|pre|..] == y;
  }

  lemma FirstColon(a: string, x: string)
    requires NoColon(a)
    ensures (a + ":" + x)[|a|] == ':'
    ensures forall i :: 0 <= i < |a| ==> (a + ":" + x)[i] != ':'
  {
  }

  /** Splitting at the first colon recovers both parts. */
  lemma SplitAtColon(a: string, x: string, b: string, y: string)
    requires NoColon(a) && NoColon(b)
    requires a + ":" + x == b + ":" + y
    ensures a == b && x == y
  {
    FirstColon(a, x);
    FirstColon(b, y);
    assert a == (a + ":" + x)[..|a|] && b == (b + ":" + y)[..|b|];
    SameHead(a + ":", x, y);
  }

  /** The four kinds of key never coincide, and within a kind the parts can be read back. */
  lemma UserKeyInjective(ws: string, user: string, ws': string, user': string)
    requires NoColon(ws) && NoColon(ws')
    requires UserKey(ws, user) == UserKey(ws', user')
    ensures ws == ws' && user == user'
  {
    assert UserKey(ws, user) == "user:" + (ws + ":" + user);
    assert UserKey(ws', user') == "user:" + (ws' + ":" + user');
    SameHead("user:", ws + ":" + user, ws' + ":" + user');
    SplitAtColon(ws, user, ws', user');
  }

  lemma ModelKeyInjective(ws: string, alias: string, ws': string, alias': string)
    requires NoColon(ws) && NoColon(ws')
    requires ModelKey(ws, alias) == ModelKey(ws', alias')
    ensures ws == ws' && alias == alias'
  {
    assert ModelKey(ws, alias) == "model:" + (ws + ":" + alias);
    assert ModelKey(ws', alias') == "model:" + (ws' + ":" + alias');
    SameHead("model:", ws + ":" + alias, ws' + ":" + alias');
    SplitAtColon(ws, alias, ws', alias');
  }

  lemma WorkspaceKeyInjective(ws: string, ws': string)
    requires WorkspaceKey(ws) == WorkspaceKey(ws')
    ensures ws == ws'
  {
    SameHead("workspace:", ws, ws');
  }

  lemma ClientKeyInjective(c: string, c': string)
    requires ClientKey(c) == ClientKey(c')
    ensures c == c'
  {
    SameHead("client:", c, c');
  }

  lemma KindsDiffer(ws: string, user: string, client: string, alias: string)
    ensures UserKey(ws, user) != "" && UserKey(ws, user)[0] == 'u'
    ensures WorkspaceKey(ws) != "" && WorkspaceKey(ws)[0] == 'w'
    ensures ClientKey(client) != "" && ClientKey(client)[0] == 'c'
    ensures ModelKey(ws, alias) != "" && ModelKey(ws, alias)[0] == 'm'
  {
  }

  /** With a colon in a workspace id, its users share keys with users of another workspace. */
  lemma ColonBreaksUserKeys(a: string, b: string, user: string)
    ensures UserKey(a + ":" + b, user) == UserKey(a, b + ":" + user) && a + ":" + b != a
  {
    var k := UserKey(a, b + ":" + user);
    assert UserKey(a + ":" + b, user) == "user:" + a + ":" + b + ":" + user == k;
    assert |a + ":" + b| > |a|;
  }

  // ---------------------------------------------------------------- workspace ids

  predicate SlugChar(c: char) {
    'a' <= c <= 'z' || '0' <= c <= '9'
  }

  /** The pattern a new workspace id has to match: one letter or digit, or two with one to 62 letters,
      digits and hyphens between them. */
  predicate IsSlug(s: string) {
    && 1 <= |s| && SlugChar(s[0])
    && (|s| == 1 ||
        (1 <= |s| - 2 <= 62 && SlugChar(s[|s| - 1]) && forall i :: 0 < i < |s| - 1 ==> SlugChar(s[i]) || s[i] == '-'))
  }

  lemma SlugHasNoColon(s: string)
    requires IsSlug(s)
    ensures NoColon(s)
  {
    forall i | 0 <= i < |s| ensures s[i] != ':' {
      assert i == 0 || i == |s| - 1 || SlugChar(s[i]) || s[i] == '-';
    }
  }

  /** Letters and digits alone make an id of any length from one to 64 but two. */
  lemma SlugLengths(s: string)
    requires forall c :: c in s ==> SlugChar(c)
    ensures IsSlug(s) <==> |s| == 1 || 3 <= |s| <= 64
  {
    assert forall i :: 0 <= i < |s| ==> s[i] in s;
  }

  /** Among workspaces with accepted ids no two users or aliases share a key. */
  lemma SlugKeysAreInjective(ws: string, ws': string, x: string, x': string)
    requires IsSlug(ws) && IsSlug(ws')
    ensures UserKey(ws, x) == UserKey(ws', x') <==> ws == ws' && x == x'
    ensures ModelKey(ws, x) == ModelKey(ws', x') <==> ws == ws' && x == x'
  {
    SlugHasNoColon(ws);
    SlugHasNoColon(ws');
    if UserKey(ws, x) == UserKey(ws', x') {
      UserKeyInjective(ws, x, ws', x');
    }
    if ModelKey(ws, x) == ModelKey(ws', x') {
      ModelKeyInjective(ws, x, ws', x');
    }
  }
}
