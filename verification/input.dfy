/** Line clean-up of the two newline-delimited input files: the proxy list
    (`loadProxies`, main.go:94-101) and the usernames file of mode 6
    (main.go:466-471). Both take the lines a `bufio.Scanner` yields. */
module Input {
  import opened Text

  const HttpScheme: string := "http://"
  const HttpsScheme: string := "https://"

  /** `strings.HasPrefix(s, "http://") || strings.HasPrefix(s, "https://")`. */
  predicate HasScheme(s: string) {
    HttpScheme <= s || HttpsScheme <= s
  }

  /** A line that survives the filters: non-empty, no white space at either end. */
  predicate IsEntry(s: string) {
    s != [] && IsTrimmed(s)
  }

  /** What one usernames-file line contributes: its trimmed text, unless that
      is empty. */
  function UsernameEntry(line: string): (r: seq<string>)
    ensures |r| <= 1
    ensures r == [] <==> TrimSpace(line) == ""
    ensures forall e :: e in r ==> IsEntry(e) && e == TrimSpace(line)
  {
    var t := TrimSpace(line);
    if t == "" then [] else [t]
  }

  /** The usernames filter of mode 6: trimmed, blank lines skipped, in input order. */
  function LoadUsernames(lines: seq<string>): (r: seq<string>)
    ensures |r| <= |lines|
    ensures forall k :: 0 <= k < |r| ==> IsEntry(r[k])
  {
    if lines == [] then [] else UsernameEntry(lines[0]) + LoadUsernames(lines[1..])
  }

  /** Nothing is lost and nothing is invented: every non-blank line is kept,
      trimmed, and every entry is the trimmed text of some line. */
  lemma {:induction false} LoadUsernamesContents(lines: seq<string>)
    ensures forall k :: 0 <= k < |lines| && TrimSpace(lines[k]) != "" ==>
      TrimSpace(lines[k]) in LoadUsernames(lines)
    ensures forall e :: e in LoadUsernames(lines) ==>
      exists k :: 0 <= k < |lines| && e == TrimSpace(lines[k])
  {
    if lines != [] {
      var tail := lines[1..];
      LoadUsernamesContents(tail);
      var r := LoadUsernames(lines);
      assert r == UsernameEntry(lines[0]) + LoadUsernames(tail);
      forall k | 0 <= k < |lines| && TrimSpace(lines[k]) != ""
        ensures TrimSpace(lines[k]) in r
      {
        if k > 0 {
          assert lines[k] == tail[k - 1];
        }
      }
      forall e | e in r
        ensures exists k :: 0 <= k < |lines| && e == TrimSpace(lines[k])
      {
        if e in UsernameEntry(lines[0]) {
          assert e == TrimSpace(lines[0]);
        } else {
          assert e in LoadUsernames(tail);
          var k :| 0 <= k < |tail| && e == TrimSpace(tail[k]);
          assert tail[k] == lines[k + 1];
        }
      }
    }
  }

  /** Adds the plain-HTTP scheme to an entry that has none. */
  function WithScheme(t: string): (r: string)
    ensures HasScheme(r)
    ensures HasScheme(t) ==> r == t
    ensures !HasScheme(t) ==> r == HttpScheme + t
  {
    if !(HttpScheme <= t) && !(HttpsScheme <= t) then HttpScheme + t else t
  }

  /** What one proxy-list line contributes. */
  function ProxyEntry(line: string): (r: seq<string>)
    ensures |r| <= 1
    ensures r == [] <==> TrimSpace(line) == ""
    ensures forall e :: e in r ==> HasScheme(e) && IsEntry(e)
    ensures HasScheme(TrimSpace(line)) ==> r == [TrimSpace(line)]
  {
    var t := TrimSpace(line);
    if t == "" then []
    else
      SchemedEntry(t);
      [WithScheme(t)]
  }

  /** Prepending the scheme keeps an entry an entry. */
  lemma SchemedEntry(t: string)
    requires IsEntry(t)
    ensures IsEntry(WithScheme(t))
  {
    var r := WithScheme(t);
    if !HasScheme(t) {
      assert r[0] == 'h' && r[|r| - 1] == t[|t| - 1];
    }
  }

  /** `loadProxies`: trimmed, blank lines skipped, `http://` prepended when
      neither scheme is present, in input order. */
  function NormaliseProxies(lines: seq<string>): (r: seq<string>)
    ensures |r| <= |lines|
    ensures forall k :: 0 <= k < |r| ==> HasScheme(r[k]) && IsEntry(r[k])
  {
    if lines == [] then [] else ProxyEntry(lines[0]) + NormaliseProxies(lines[1..])
  }

  /** Order preservation: the usernames filter works line by line, so it
      distributes over concatenation of inputs. */
  lemma {:induction false} LoadUsernamesAppend(a: seq<string>, b: seq<string>)
    ensures LoadUsernames(a + b) == LoadUsernames(a) + LoadUsernames(b)
  {
    if a != [] {
      assert (a + b)[1..] == a[1..] + b;
      LoadUsernamesAppend(a[1..], b);
    } else {
      assert a + b == b;
    }
  }

  /** Order preservation for the proxy list, as for the usernames filter. */
  lemma {:induction false} NormaliseProxiesAppend(a: seq<string>, b: seq<string>)
    ensures NormaliseProxies(a + b) == NormaliseProxies(a) + NormaliseProxies(b)
  {
    if a != [] {
      assert (a + b)[1..] == a[1..] + b;
      NormaliseProxiesAppend(a[1..], b);
    } else {
      assert a + b == b;
    }
  }

  /** Proxy normalisation is the usernames filter followed by `WithScheme`
      on each entry: same length, same order, entry by entry. */
  lemma {:induction false} NormaliseIsSchemedFilter(lines: seq<string>)
    ensures |NormaliseProxies(lines)| == |LoadUsernames(lines)|
    ensures forall k :: 0 <= k < |LoadUsernames(lines)| ==>
      NormaliseProxies(lines)[k] == WithScheme(LoadUsernames(lines)[k])
  {
    if lines != [] {
      NormaliseIsSchemedFilter(lines[1..]);
    }
  }

  /** An entry already carrying `http://` or `https://` comes through with
      only its surrounding white space removed. */
  lemma {:induction false} SchemedLinesKept(lines: seq<string>, k: nat)
    requires k < |lines| && HasScheme(TrimSpace(lines[k]))
    ensures TrimSpace(lines[k]) in NormaliseProxies(lines)
  {
    var t := TrimSpace(lines[k]);
    var head, rest := ProxyEntry(lines[0]), NormaliseProxies(lines[1..]);
    assert NormaliseProxies(lines) == head + rest;
    if k > 0 {
      assert lines[1..][k - 1] == lines[k];
      SchemedLinesKept(lines[1..], k - 1);
      assert t in rest;
    } else {
      assert head == [t];
    }
  }

  /** Re-reading the usernames filter's own output changes nothing. */
  lemma {:induction false} LoadUsernamesIdempotent(lines: seq<string>)
    ensures LoadUsernames(LoadUsernames(lines)) == LoadUsernames(lines)
  {
    if lines != [] {
      var head := UsernameEntry(lines[0]);
      LoadUsernamesAppend(head, LoadUsernames(lines[1..]));
      LoadUsernamesIdempotent(lines[1..]);
      if head != [] {
        TrimSpaceOfTrimmed(head[0]);
        assert LoadUsernames(head) == UsernameEntry(head[0]) + LoadUsernames([]);
      }
    }
  }

  /** Normalising the proxy list twice is normalising it once. */
  lemma {:induction false} NormaliseProxiesIdempotent(lines: seq<string>)
    ensures NormaliseProxies(NormaliseProxies(lines)) == NormaliseProxies(lines)
  {
    if lines != [] {
      var head := ProxyEntry(lines[0]);
      var tail := NormaliseProxies(lines[1..]);
      assert NormaliseProxies(lines) == head + tail;
      NormaliseProxiesAppend(head, tail);
      NormaliseProxiesIdempotent(lines[1..]);
      if head != [] {
        assert head == [head[0]] && head[0] in head;
        ProxyEntryStable(head[0]);
      }
    }
  }

  /** A normalised proxy entry normalises to itself. */
  lemma ProxyEntryStable(e: string)
    requires HasScheme(e) && IsEntry(e)
    ensures NormaliseProxies([e]) == [e]
  {
    TrimSpaceOfTrimmed(e);
    assert ProxyEntry(e) == [e];
    assert NormaliseProxies([e]) == ProxyEntry(e) + NormaliseProxies([]);
  }
}
