/**
 * The browser's cookie jar as the redirect script sees it, the write done by
 * `setCookie` and the linear scan done by `getCookie`.
 *
 * The jar keeps cookies in creation order. Writing a cookie whose name is
 * already present replaces that cookie where it stands (a replaced cookie
 * keeps its creation time, section 5.3 of RFC 6265); a new name is appended.
 * `document.cookie` lists the cookies as `name=value` pairs joined by "; ",
 * so after `split(';')` every entry but the first starts with a space.
 */
module Cookies {
  import opened Text

  datatype Cookie = Cookie(name: string, value: string)

  type Jar = seq<Cookie>

  /** How one cookie reads in `document.cookie`; a cookie without a name shows only its value. */
  function Entry(c: Cookie): string {
    if c.name == "" then c.value else c.name + "=" + c.value
  }

  /** `document.cookie` split on ';' (values never hold ';' once stored). */
  function Entries(jar: Jar): (entries: seq<string>)
    ensures |entries| == |jar|
  {
    if jar == [] then [] else [Entry(jar[0])] + Padded(jar[1..])
  }

  /** The entries that follow a "; " separator. */
  function Padded(jar: Jar): (entries: seq<string>)
    ensures |entries| == |jar|
  {
    if jar == [] then [] else [" " + Entry(jar[0])] + Padded(jar[1..])
  }

  /** `getCookie`'s test `c.indexOf(name + "=") === 0` on the trimmed entry. */
  predicate Matches(entry: string, name: string) {
    StartsWith(Trim(entry), name + "=")
  }

  /** What `getCookie(name)` returns: the rest of the first matching entry, or "". */
  function CookieValue(entries: seq<string>, name: string): string {
    if entries == [] then ""
    else if Matches(entries[0], name) then Trim(entries[0])[|name| + 1..]
    else CookieValue(entries[1..], name)
  }

  /** `getCookie`: a scan over the entries that returns at the first match. */
  method GetCookie(entries: seq<string>, name: string) returns (v: string)
    ensures v == CookieValue(entries, name)
  {
    var cname := name + "=";
    for i := 0 to |entries|
      invariant CookieValue(entries, name) == CookieValue(entries[i..], name)
    {
      assert entries[i..][1..] == entries[i + 1..];
      var c := Trim(entries[i]);
      if StartsWith(c, cname) {
        return c[|cname|..];
      }
    }
    return "";
  }

  /** The result is the suffix of the first entry that matches. */
  lemma {:induction false} CookieValueIsFirstMatch(entries: seq<string>, name: string, i: nat)
    requires i < |entries| && Matches(entries[i], name)
    requires forall j :: 0 <= j < i ==> !Matches(entries[j], name)
    ensures CookieValue(entries, name) == Trim(entries[i])[|name| + 1..]
  {
    if i > 0 {
      assert forall j :: 0 <= j < i - 1 ==> entries[1..][j] == entries[j + 1];
      CookieValueIsFirstMatch(entries[1..], name, i - 1);
    }
  }

  /** Without a matching entry the result is the empty string. */
  lemma {:induction false} CookieValueAbsent(entries: seq<string>, name: string)
    requires forall j :: 0 <= j < |entries| ==> !Matches(entries[j], name)
    ensures CookieValue(entries, name) == ""
  {
    if entries != [] {
      assert forall j :: 0 <= j < |entries| - 1 ==> entries[1..][j] == entries[j + 1];
      CookieValueAbsent(entries[1..], name);
    }
  }

  /** The value of the first cookie with this name, or "" when there is none. */
  function Lookup(jar: Jar, name: string): string {
    if jar == [] then ""
    else if jar[0].name == name then jar[0].value
    else Lookup(jar[1..], name)
  }

  predicate Has(jar: Jar, name: string) {
    exists c :: c in jar && c.name == name
  }

  /** `setCookie(name, value, days)`, seen from the jar: the cookie now holds `value`. */
  function Put(jar: Jar, name: string, value: string): (r: Jar)
    ensures Lookup(r, name) == value
  {
    if jar == [] then [Cookie(name, value)]
    else if jar[0].name == name then [Cookie(name, value)] + jar[1..]
    else [jar[0]] + Put(jar[1..], name, value)
  }

  /** A write leaves every other cookie's value as it was. */
  lemma {:induction false} PutKeepsOthers(jar: Jar, name: string, value: string, other: string)
    requires other != name
    ensures Lookup(Put(jar, name, value), other) == Lookup(jar, other)
  {
    if jar != [] && jar[0].name != name {
      PutKeepsOthers(jar[1..], name, value, other);
    }
  }

  /** A write adds or replaces only the written cookie and drops no other. */
  lemma {:induction false} PutContents(jar: Jar, name: string, value: string)
    ensures Cookie(name, value) in Put(jar, name, value)
    ensures forall c :: c in Put(jar, name, value) ==> c in jar || c == Cookie(name, value)
    ensures forall c :: c in jar && c.name != name ==> c in Put(jar, name, value)
  {
    if jar != [] && jar[0].name != name {
      PutContents(jar[1..], name, value);
    }
  }

  /** Writing the value a cookie already holds leaves the jar as it was. */
  lemma {:induction false} PutExisting(jar: Jar, name: string, value: string)
    requires Has(jar, name) && Lookup(jar, name) == value
    ensures Put(jar, name, value) == jar
  {
    if jar[0].name != name {
      var c :| c in jar && c.name == name;
      assert c in jar[1..];
      PutExisting(jar[1..], name, value);
    }
  }

  /** A name the browser can store and `getCookie` can find: no '=' and no leading white space. */
  predicate ValidName(name: string) {
    name != "" && !IsWhitespace(name[0]) && '=' !in name
  }

  predicate WellFormed(jar: Jar) {
    forall c :: c in jar ==> ValidName(c.name)
  }

  /** Trimming an entry of a named cookie leaves `name=` and the value without trailing white space. */
  lemma TrimEntry(e: string, c: Cookie)
    requires e == Entry(c) || e == " " + Entry(c)
    requires ValidName(c.name)
    ensures Trim(e) == c.name + "=" + TrimEnd(c.value)
  {
    if e != Entry(c) {
      TrimStartPadded(Entry(c));
    }
    assert TrimStart(Entry(c)) == Entry(c);
    TrimEndAfter(c.name + "=", c.value);
  }

  /** With no '=' in either name, `key=...` starts with `name=` only when the names agree. */
  lemma KeyMatches(key: string, rest: string, name: string)
    requires '=' !in key && '=' !in name
    ensures StartsWith(key + "=" + rest, name + "=") <==> key == name
  {
    var t := key + "=" + rest;
    if |name| < |key| {
      assert t[|name|] == key[|name|] != '=' == (name + "=")[|name|];
    } else if |name| > |key| {
      assert t[|key|] == '=' != name[|key|] == (name + "=")[|key|];
    } else {
      assert t[..|name| + 1] == key + "=";
      if StartsWith(t, name + "=") {
        assert key == (key + "=")[..|key|] == (name + "=")[..|name|] == name;
      }
    }
  }

  /** An entry of a well-formed jar matches exactly the name of its own cookie. */
  lemma EntryMatches(e: string, c: Cookie, name: string)
    requires e == Entry(c) || e == " " + Entry(c)
    requires ValidName(c.name) && ValidName(name)
    ensures Matches(e, name) <==> c.name == name
    ensures c.name == name ==> Trim(e)[|name| + 1..] == TrimEnd(c.value)
  {
    TrimEntry(e, c);
    KeyMatches(c.name, TrimEnd(c.value), name);
    var t := c.name + "=" + TrimEnd(c.value);
    assert t[|c.name| + 1..] == TrimEnd(c.value);
  }

  lemma {:induction false} ReadPadded(jar: Jar, name: string)
    requires WellFormed(jar) && ValidName(name)
    ensures CookieValue(Padded(jar), name) == TrimEnd(Lookup(jar, name))
  {
    if jar != [] {
      EntryMatches(" " + Entry(jar[0]), jar[0], name);
      if jar[0].name != name {
        assert Padded(jar)[1..] == Padded(jar[1..]);
        ReadPadded(jar[1..], name);
      }
    }
  }

  /**
   * Reading the jar through `getCookie` gives the stored value of the first
   * cookie of that name (bar trailing white space, which `trim` removes),
   * and "" when there is none.
   */
  lemma {:induction false} ReadJar(jar: Jar, name: string)
    requires WellFormed(jar) && ValidName(name)
    ensures CookieValue(Entries(jar), name) == TrimEnd(Lookup(jar, name))
  {
    if jar != [] {
      EntryMatches(Entry(jar[0]), jar[0], name);
      if jar[0].name != name {
        assert Entries(jar)[1..] == Padded(jar[1..]);
        ReadPadded(jar[1..], name);
      }
    }
  }
}
