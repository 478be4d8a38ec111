/**
 * The endpoint table of PyBlox2/utils/Http.py and the host lookup that `Url`
 * performs with it: the key is lower-cased, looked up, and passed through
 * unchanged (in its original case) when the table does not know it.
 */
module Endpoints {

  /** The fixed table of short endpoint names and their hosts. */
  const Table: map<string, string> := map[
    "groups" := "groups.roblox.com",
    "friends" := "friends.roblox.com",
    "default" := "api.roblox.com"
  ]

  /** Lower-casing of one character; only the ASCII letters change. */
  function LowerChar(c: char): char {
    if 'A' <= c <= 'Z' then (c as int + 32) as char else c
  }

  /** Lower-casing of a string, character by character. */
  function Lower(s: string): (r: string)
    ensures |r| == |s|
    ensures forall i :: 0 <= i < |s| ==> r[i] == LowerChar(s[i])
  {
    if s == [] then [] else [LowerChar(s[0])] + Lower(s[1..])
  }

  /** The host an endpoint key stands for. */
  function ResolveHost(endpoint: string): (host: string) {
    var key := Lower(endpoint);
    if key in Table then Table[key] else endpoint
  }

  /** Lower-casing is fixed by what it does to each character. */
  lemma LowerEach(s: string, t: string)
    requires |s| == |t| && forall i :: 0 <= i < |s| ==> LowerChar(s[i]) == t[i]
    ensures Lower(s) == t
  {
  }

  /** A key the table does not know is its own host, letter case included. */
  lemma UnknownKeyPassesThrough(endpoint: string)
    requires Lower(endpoint) !in Table
    ensures ResolveHost(endpoint) == endpoint
  {
  }

  /** Keys that differ only in letter case resolve alike. */
  lemma LookupIgnoresCase(a: string, b: string)
    requires Lower(a) == Lower(b) && Lower(a) in Table
    ensures ResolveHost(a) == ResolveHost(b) == Table[Lower(a)]
  {
  }

  /**
   * The default API host is reached only through the key "default" (in any
   * letter case) or by naming that host itself; an unknown key never falls
   * back to it.
   */
  lemma DefaultHostOnlyByName(endpoint: string)
    requires ResolveHost(endpoint) == "api.roblox.com"
    ensures Lower(endpoint) == "default" || endpoint == "api.roblox.com"
  {
    var key := Lower(endpoint);
    if key in Table {
      assert key == "groups" || key == "friends" || key == "default";
    }
  }

  /**
   * Any spelling of a known key, whatever the case of its letters, reaches
   * that key's host (so "GROUPS" and "Friends" work like "groups" and "friends").
   */
  lemma KeyInAnyCase(endpoint: string, key: string)
    requires key in Table
    requires |endpoint| == |key| && forall i :: 0 <= i < |key| ==> LowerChar(endpoint[i]) == key[i]
    ensures ResolveHost(endpoint) == Table[key]
  {
    LowerEach(endpoint, key);
  }

  /** A host written without capitals that is not a table key passes through. */
  lemma LowerCaseHostPassesThrough(host: string)
    requires forall i :: 0 <= i < |host| ==> !('A' <= host[i] <= 'Z')
    requires host !in Table
    ensures ResolveHost(host) == host
  {
    LowerEach(host, host);
  }

  /** The login host is such a host. */
  lemma LoginHostPassesThrough()
    ensures ResolveHost("www.roblox.com") == "www.roblox.com"
  {
    LowerCaseHostPassesThrough("www.roblox.com");
  }
}
