/**
 * The cookie helpers of script.js: `getCookie` parses the `document.cookie`
 * string, `setCookie` and `deleteCookie` update the browser's cookie jar.
 * The jar itself is a map from cookie name to value; expiry is not modelled.
 */
module Cookies {
  import opened Options

  /** The browser's cookie jar: cookie name to value. */
  type Jar = map<string, string>

  /** Reading one cookie from the jar; `None` plays JavaScript's `null`. */
  function Lookup(jar: Jar, name: string): Option<string>
  {
    if name in jar then Some(jar[name]) else None
  }

  /** JavaScript's `parts.join(sep)` for a one-character separator. */
  function Join(parts: seq<string>, sep: char): string
  {
    if |parts| == 0 then ""
    else if |parts| == 1 then parts[0]
    else parts[0] + [sep] + Join(parts[1..], sep)
  }

  /**
   * JavaScript's `s.split(sep)` for a one-character separator: there is
   * always at least one part, no part holds the separator, and joining the
   * parts again gives back `s`.
   */
  function Split(s: string, sep: char): (parts: seq<string>)
    ensures |parts| >= 1
    ensures forall k :: 0 <= k < |parts| ==> sep !in parts[k]
    ensures Join(parts, sep) == s
  {
    if s == [] then [""]
    else
      var rest := Split(s[1..], sep);
      if s[0] == sep then
        assert ([""] + rest)[1..] == rest;
        [""] + rest
      else
        var parts := [[s[0]] + rest[0]] + rest[1..];
        assert parts[1..] == rest[1..];
        assert s == [s[0]] + s[1..];
        parts
  }

  /** `c` once getCookie's inner `while (c.charAt(0) === ' ')` loop has removed its leading spaces. */
  function TrimLeadingSpaces(c: string): (t: string)
    ensures t == [] || t[0] != ' '
    ensures forall ch :: ch in t ==> ch in c
  {
    if |c| > 0 && c[0] == ' ' then TrimLeadingSpaces(c[1..]) else c
  }

  /** The inner loop removes exactly the leading spaces: what is left is a suffix of `c`, preceded only by spaces. */
  lemma {:induction false} TrimLeadingSpacesStrips(c: string)
    ensures var t := TrimLeadingSpaces(c);
      && |t| <= |c| && t == c[|c| - |t|..]
      && forall j :: 0 <= j < |c| - |t| ==> c[j] == ' '
  {
    if |c| > 0 && c[0] == ' ' {
      TrimLeadingSpacesStrips(c[1..]);
    }
  }

  /**
   * The position of the first entry that begins with `prefix` once its
   * leading spaces are removed, or `None` when no entry does.
   */
  function MatchIndex(entries: seq<string>, prefix: string): (r: Option<nat>)
    ensures r.Some? ==> r.value < |entries| && prefix <= TrimLeadingSpaces(entries[r.value])
    ensures r.Some? ==> forall j :: 0 <= j < r.value ==> !(prefix <= TrimLeadingSpaces(entries[j]))
    ensures r.None? ==> forall j :: 0 <= j < |entries| ==> !(prefix <= TrimLeadingSpaces(entries[j]))
  {
    if |entries| == 0 then None
    else if prefix <= TrimLeadingSpaces(entries[0]) then Some(0)
    else match MatchIndex(entries[1..], prefix)
      case None => None
      case Some(k) => Some(k + 1)
  }

  /**
   * What `getCookie(name)` returns for the cookie string `cookie`: the text
   * after `name=` in the first `;`-separated entry that starts with `name=`
   * once its leading spaces are removed, or `None` (JavaScript's `null`).
   * A value found this way never contains `;`.
   */
  function CookieValue(cookie: string, name: string): (r: Option<string>)
    ensures r.Some? ==> ';' !in r.value
  {
    var entries := Split(cookie, ';');
    var prefix := name + "=";
    match MatchIndex(entries, prefix)
    case None => None
    case Some(k) =>
      var t := TrimLeadingSpaces(entries[k]);
      assert forall ch :: ch in t[|prefix|..] ==> ch in t;
      Some(t[|prefix|..])
  }

  /** The first entry that matches is the one MatchIndex finds. */
  lemma MatchIndexAt(entries: seq<string>, prefix: string, i: nat)
    requires i < |entries| && prefix <= TrimLeadingSpaces(entries[i])
    requires forall j :: 0 <= j < i ==> !(prefix <= TrimLeadingSpaces(entries[j]))
    ensures MatchIndex(entries, prefix) == Some(i)
  {
  }

  /** When entry `i` is the first to start with `name=`, getCookie returns the rest of it. */
  lemma CookieValueAt(cookie: string, name: string, i: nat)
    requires i < |Split(cookie, ';')|
    requires name + "=" <= TrimLeadingSpaces(Split(cookie, ';')[i])
    requires forall j :: 0 <= j < i ==> !(name + "=" <= TrimLeadingSpaces(Split(cookie, ';')[j]))
    ensures CookieValue(cookie, name) == Some(TrimLeadingSpaces(Split(cookie, ';')[i])[|name + "="|..])
  {
    MatchIndexAt(Split(cookie, ';'), name + "=", i);
  }

  /** When no entry starts with `name=`, getCookie returns `null`. */
  lemma CookieValueAbsent(cookie: string, name: string)
    requires forall j :: 0 <= j < |Split(cookie, ';')| ==> !(name + "=" <= TrimLeadingSpaces(Split(cookie, ';')[j]))
    ensures CookieValue(cookie, name) == None
  {
  }

  /** getCookie: the `for` loop over the entries with its inner `while` loop that strips spaces. */
  method GetCookie(cookie: string, name: string) returns (r: Option<string>)
    ensures r == CookieValue(cookie, name)
  {
    var nameEQ := name + "=";
    var ca := Split(cookie, ';');
    for i := 0 to |ca|
      invariant forall j :: 0 <= j < i ==> !(nameEQ <= TrimLeadingSpaces(ca[j]))
    {
      var c := ca[i];
      while |c| > 0 && c[0] == ' '
        invariant TrimLeadingSpaces(c) == TrimLeadingSpaces(ca[i])
      {
        c := c[1..];
      }
      // `c.indexOf(nameEQ) === 0` holds exactly when `nameEQ` is a prefix of `c`
      if nameEQ <= c {
        CookieValueAt(cookie, name, i);
        return Some(c[|nameEQ|..]);
      }
    }
    CookieValueAbsent(cookie, name);
    return None;
  }

  /** setCookie: the cookie `name` now holds `value`; nothing else changes. */
  function SetCookie(jar: Jar, name: string, value: string): (jar': Jar)
    ensures Lookup(jar', name) == Some(value)
    ensures forall other :: other != name ==> Lookup(jar', other) == Lookup(jar, other)
  {
    jar[name := value]
  }

  /** deleteCookie: the cookie `name` is gone; nothing else changes. */
  function DeleteCookie(jar: Jar, name: string): (jar': Jar)
    ensures Lookup(jar', name) == None
    ensures forall other :: other != name ==> Lookup(jar', other) == Lookup(jar, other)
  {
    jar - {name}
  }

  // ----- The cookie string a browser shows for a jar -----

  /** A cookie the browser can list unambiguously: a name without space, `;` or `=`, a value without `;`. */
  predicate CookieSafe(pair: (string, string))
  {
    ' ' !in pair.0 && ';' !in pair.0 && '=' !in pair.0 && ';' !in pair.1
  }

  /** `pairs` lists every cookie of `jar` exactly once. */
  ghost predicate ListsJar(pairs: seq<(string, string)>, jar: Jar)
  {
    && (forall i :: 0 <= i < |pairs| ==> pairs[i].0 in jar && jar[pairs[i].0] == pairs[i].1)
    && (forall name :: name in jar ==> exists i :: 0 <= i < |pairs| && pairs[i].0 == name)
    && (forall i, j :: 0 <= i < j < |pairs| ==> pairs[i].0 != pairs[j].0)
  }

  function EntryText(pair: (string, string)): string
  {
    pair.0 + "=" + pair.1
  }

  /** The entries of the rendered string: every entry after the first is preceded by a space. */
  function Entries(pairs: seq<(string, string)>): (entries: seq<string>)
    ensures |entries| == |pairs|
  {
    seq(|pairs|, i requires 0 <= i < |pairs| => (if i == 0 then "" else " ") + EntryText(pairs[i]))
  }

  /** `document.cookie`: the pairs `name=value` joined by "; " (RFC 6265, section 5.4). */
  function Render(pairs: seq<(string, string)>): string
  {
    Join(Entries(pairs), ';')
  }

  lemma {:induction false} SplitPrefix(a: string, t: string, sep: char)
    requires sep !in a
    ensures Split(a + t, sep) == [a + Split(t, sep)[0]] + Split(t, sep)[1..]
  {
    if a == [] {
      assert a + t == t;
      assert a + Split(t, sep)[0] == Split(t, sep)[0];
      assert [Split(t, sep)[0]] + Split(t, sep)[1..] == Split(t, sep);
    } else {
      SplitPrefix(a[1..], t, sep);
      assert (a + t)[1..] == a[1..] + t;
      assert (a + t)[0] == a[0];
      assert [a[0]] + (a[1..] + Split(t, sep)[0]) == a + Split(t, sep)[0];
    }
  }

  /** Splitting a join of separator-free parts gives back the parts. */
  lemma {:induction false} SplitOfJoin(parts: seq<string>, sep: char)
    requires |parts| >= 1
    requires forall k :: 0 <= k < |parts| ==> sep !in parts[k]
    ensures Split(Join(parts, sep), sep) == parts
  {
    if |parts| == 1 {
      SplitPrefix(parts[0], "", sep);
      assert parts[0] + "" == parts[0];
      assert Split("", sep) == [""];
      assert Join(parts, sep) == parts[0];
    } else {
      var rest := Join(parts[1..], sep);
      SplitOfJoin(parts[1..], sep);
      assert Join(parts, sep) == parts[0] + [sep] + rest;
      SplitPrefix(parts[0], [sep] + rest, sep);
      assert parts[0] + [sep] + rest == parts[0] + ([sep] + rest);
      assert ([sep] + rest)[1..] == rest;
      assert Split([sep] + rest, sep) == [""] + Split(rest, sep);
      assert Split([sep] + rest, sep)[0] == "";
      assert Split([sep] + rest, sep)[1..] == parts[1..];
      assert parts[0] + "" == parts[0];
      assert Split(parts[0] + ([sep] + rest), sep) == [parts[0]] + parts[1..];
      assert parts == [parts[0]] + parts[1..];
    }
  }

  lemma {:induction false} TrimSpaceBeforeEntry(pair: (string, string))
    requires CookieSafe(pair)
    ensures TrimLeadingSpaces(" " + EntryText(pair)) == EntryText(pair)
    ensures TrimLeadingSpaces(EntryText(pair)) == EntryText(pair)
  {
    var e := EntryText(pair);
    assert e[0] != ' ' by {
      if |pair.0| > 0 { assert e[0] == pair.0[0]; } else { assert e[0] == '='; }
    }
    assert (" " + e)[1..] == e;
  }

  /** `name=` starts the entry `n=v` exactly when `n` is `name`, as neither name holds `=`. */
  lemma {:induction false} PrefixIffSameName(name: string, pair: (string, string))
    requires '=' !in name && '=' !in pair.0
    ensures name + "=" <= EntryText(pair) <==> pair.0 == name
  {
    var e := EntryText(pair);
    var p := name + "=";
    if pair.0 == name {
      assert e == p + pair.1;
    } else if |name| < |pair.0| {
      assert e[|name|] == pair.0[|name|] != '=' == p[|name|];
    } else if |name| > |pair.0| {
      assert e[|pair.0|] == '=' != name[|pair.0|] == p[|pair.0|];
    } else {
      var i :| 0 <= i < |name| && name[i] != pair.0[i];
      assert e[i] == pair.0[i] != name[i] == p[i];
    }
  }

  /** The string a browser renders splits back into its entries. */
  lemma RenderSplits(pairs: seq<(string, string)>)
    requires |pairs| >= 1
    requires forall i :: 0 <= i < |pairs| ==> CookieSafe(pairs[i])
    ensures Split(Render(pairs), ';') == Entries(pairs)
  {
    var entries := Entries(pairs);
    forall k | 0 <= k < |entries| ensures ';' !in entries[k] {
      assert entries[k] == (if k == 0 then "" else " ") + EntryText(pairs[k]);
    }
    SplitOfJoin(entries, ';');
  }

  /** The `k`th rendered entry matches `name=` exactly when the `k`th cookie is called `name`. */
  lemma EntryMatches(pairs: seq<(string, string)>, name: string, k: nat)
    requires k < |pairs| && CookieSafe(pairs[k]) && '=' !in name
    ensures TrimLeadingSpaces(Entries(pairs)[k]) == EntryText(pairs[k])
    ensures name + "=" <= TrimLeadingSpaces(Entries(pairs)[k]) <==> pairs[k].0 == name
  {
    TrimSpaceBeforeEntry(pairs[k]);
    PrefixIffSameName(name, pairs[k]);
  }

  /**
   * getCookie reads the jar: for the string a browser renders from a jar of
   * well-formed cookies, the value getCookie finds for a name is exactly the
   * jar's value for that name, and `null` when the jar has no such cookie.
   */
  lemma {:induction false} CookieStringReflectsJar(pairs: seq<(string, string)>, jar: Jar, name: string)
    requires ListsJar(pairs, jar)
    requires forall i :: 0 <= i < |pairs| ==> CookieSafe(pairs[i])
    requires '=' !in name
    ensures CookieValue(Render(pairs), name) == Lookup(jar, name)
  {
    var prefix := name + "=";
    if |pairs| == 0 {
      assert Render(pairs) == "";
      assert Split("", ';') == [""];
      assert !(prefix <= "");
      assert name !in jar;
    } else {
      var entries := Entries(pairs);
      RenderSplits(pairs);
      match MatchIndex(entries, prefix)
      case None =>
        if name in jar {
          var i :| 0 <= i < |pairs| && pairs[i].0 == name;
          EntryMatches(pairs, name, i);
          assert false;
        }
      case Some(k) =>
        EntryMatches(pairs, name, k);
        var e := EntryText(pairs[k]);
        assert e == prefix + pairs[k].1;
        assert e[|prefix|..] == pairs[k].1;
    }
  }
}
