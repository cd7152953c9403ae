/** The presence provider's index of connected users, and the lookup against it. */
module PresenceIndex {
  import opened Text

  function Normalize(recipient: string): string
  {
    var trimmed := Trim(recipient);
    if trimmed == "" then trimmed else Lower(Before(trimmed, '/'))
  }

  function BareJid(recipient: string): string { Normalize(recipient) }

  function BareUser(recipient: string): string
  {
    var normalized := Normalize(recipient);
    if IsBlank(normalized) then "" else Before(normalized, '@')
  }

  /** The keys under which one reported JID is filed; `None` is a node that is not text. */
  function Keys(node: Option<string>): set<string>
  {
    if node.None? || IsBlank(Normalize(node.value)) then {} else
    var full := Normalize(node.value);
    {full, BareJid(full), BareUser(full)}
  }

  function IndexOf(payload: seq<Option<string>>): set<string>
  {
    if payload == [] then {} else Keys(payload[0]) + IndexOf(payload[1..])
  }

  lemma {:induction false} KeyIsOfAReportedJid(payload: seq<Option<string>>, key: string)
    ensures key in IndexOf(payload) <==> exists i :: 0 <= i < |payload| && key in Keys(payload[i])
  {
    if payload != [] {
      KeyIsOfAReportedJid(payload[1..], key);
      if key in IndexOf(payload[1..]) {
        var i :| 0 <= i < |payload| - 1 && key in Keys(payload[1..][i]);
        assert key in Keys(payload[i + 1]);
      }
      if i :| 0 <= i < |payload| && key in Keys(payload[i]) {
        assert i == 0 || payload[1..][i - 1] == payload[i];
      }
    }
  }

  method FetchOnlineRecipients(payload: seq<Option<string>>) returns (recipients: set<string>)
    ensures recipients == IndexOf(payload)
  {
    hide Normalize, BareUser, BareJid, IsBlank;
    recipients := {};
    for k := 0 to |payload|
      invariant recipients + IndexOf(payload[k..]) == IndexOf(payload)
    {
      var node := payload[k];
      ghost var filed := recipients;
      assert IndexOf(payload[k..]) == Keys(node) + IndexOf(payload[k + 1..]) by {
        assert payload[k..][0] == node && payload[k..][1..] == payload[k + 1..];
      }
      if node.Some? {
        var full := Normalize(node.value);
        if !IsBlank(full) {
          recipients := recipients + {full};
          recipients := recipients + {BareJid(full)};
          recipients := recipients + {BareUser(full)};
        }
      }
      assert recipients == filed + Keys(node);
    }
  }

  predicate IsOnline(recipient: Option<string>, online: set<string>, domain: string)
  {
    if recipient.None? || IsBlank(recipient.value) then false else
    var normalized := Normalize(recipient.value);
    if IsBlank(normalized) then false
    else if normalized in online then true
    else if BareUser(normalized) in online then true
    else if '@' !in normalized then normalized + "@" + domain in online
    else false
  }

  // ---- The specification ---------------------------------------------------------------

  /** The JID without its resource: section 3.2 of RFC 7622 splits at the first slash. */
  function Bare(jid: string): string { Before(jid, '/') }

  /** The case-folded local part. */
  function LocalPart(jid: string): string { Lower(Before(Bare(jid), '@')) }

  ghost predicate Listed(payload: seq<Option<string>>, local: string)
  {
    exists i :: 0 <= i < |payload| && payload[i].Some?
                && Bare(payload[i].value) != "" && LocalPart(payload[i].value) == local
  }

  ghost predicate Tidy(payload: seq<Option<string>>)
  {
    forall i | 0 <= i < |payload| && payload[i].Some? :: NoSpace(payload[i].value)
  }

  lemma LowerOfRest(s: string)
    requires s != ""
    ensures Lower(s)[1..] == Lower(s[1..]) && Lower(s) == [Lower(s)[0]] + Lower(s[1..])
    ensures Lower(s)[0] == Lower([s[0]])[0]
    ensures Lower(s)[0] == '/' <==> s[0] == '/'
    ensures Lower(s)[0] == '@' <==> s[0] == '@'
  {
    assert Lower(s)[1..] == Lower(s[1..]);
  }

  lemma {:induction false} LowerKeepsSeparators(s: string, c: char)
    requires c == '/' || c == '@'
    ensures Before(Lower(s), c) == Lower(Before(s, c))
  {
    if s != "" {
      LowerOfRest(s);
      if s[0] != c {
        hide Lower;
        LowerKeepsSeparators(s[1..], c);
        LowerOfRest([s[0]] + Before(s[1..], c));
      }
    }
  }

  lemma LowerTwice(s: string)
    ensures Lower(Lower(s)) == Lower(s)
  {
  }

  lemma LowerKeepsSpaces(s: string)
    ensures NoSpace(s) ==> NoSpace(Lower(s))
    ensures NoSpace(s) ==> (IsBlank(Lower(s)) <==> s == "")
  {
    if NoSpace(s) {
      forall c | c in Lower(s) ensures !IsSpace(c) {
        var i :| 0 <= i < |s| && Lower(s)[i] == c;
        assert s[i] in s;
      }
      if s != "" { assert Lower(s)[0] in Lower(s); }
    }
  }

  lemma PrefixHasNoSpace(s: string, c: char)
    requires NoSpace(s)
    ensures NoSpace(Before(s, c))
  {
    forall x | x in Before(s, c) ensures !IsSpace(x) {
      var i :| 0 <= i < |Before(s, c)| && Before(s, c)[i] == x;
      assert s[i] == x;
    }
  }

  /** On text without whitespace normalising twice is normalising once. */
  lemma NormalForm(s: string)
    requires NoSpace(s)
    ensures Normalize(s) == Lower(Bare(s)) && NoSpace(Normalize(s)) && '/' !in Normalize(s)
    ensures Normalize(Normalize(s)) == Normalize(s)
    ensures IsBlank(Normalize(s)) <==> Bare(s) == ""
    ensures Bare(s) != "" ==> BareUser(Normalize(s)) == LocalPart(s)
  {
    PrefixHasNoSpace(s, '/');
    LowerKeepsSpaces(Bare(s));
    LowerKeepsSeparators(Bare(s), '/');
    assert Before(Bare(s), '/') == Bare(s);
    LowerTwice(Bare(s));
    LowerKeepsSeparators(Bare(s), '@');
  }

  lemma KeysOf(jid: string)
    requires NoSpace(jid)
    ensures Keys(Some(jid)) == if Bare(jid) == "" then {} else {Lower(Bare(jid)), LocalPart(jid)}
  {
    NormalForm(jid);
  }

  lemma LocalPartOfKey(jid: string, key: string)
    requires NoSpace(jid) && key in Keys(Some(jid))
    ensures Bare(jid) != "" && Before(key, '@') == LocalPart(jid)
    ensures '@' !in key ==> key == LocalPart(jid)
  {
    KeysOf(jid);
    LowerKeepsSeparators(Bare(jid), '@');
    var local := LocalPart(jid);
    assert Before(local, '@') == local by { LowerKeepsSeparators(Before(Bare(jid), '@'), '@'); }
  }

  /** Of any listed key, the local part names a connected user; and every connected user's local part is a key. */
  lemma KeysAreLocalParts(payload: seq<Option<string>>, key: string)
    requires Tidy(payload)
    ensures key in IndexOf(payload) ==> Listed(payload, Before(key, '@'))
    ensures Listed(payload, key) ==> key in IndexOf(payload)
  {
    KeyIsOfAReportedJid(payload, key);
    if key in IndexOf(payload) {
      var i :| 0 <= i < |payload| && key in Keys(payload[i]);
      LocalPartOfKey(payload[i].value, key);
    }
    if Listed(payload, key) {
      var i :| 0 <= i < |payload| && payload[i].Some?
               && Bare(payload[i].value) != "" && LocalPart(payload[i].value) == key;
      KeysOf(payload[i].value);
      assert payload[i] == Some(payload[i].value);
    }
  }

  /** For JIDs without whitespace the lookup answers whether some connected JID has the same case-folded local part. */
  lemma OnlineMeansSameLocalPart(payload: seq<Option<string>>, x: string, domain: string)
    requires Tidy(payload) && NoSpace(x)
    ensures IsOnline(Some(x), IndexOf(payload), domain) <==> Bare(x) != "" && Listed(payload, LocalPart(x))
  {
    hide Lower, Keys, IndexOf, Listed;
    if x == "" {
      assert Bare(x) == "";
    } else {
      assert x[0] in x;
      NormalForm(x);
      if Bare(x) != "" {
        var n, local, index := Normalize(x), LocalPart(x), IndexOf(payload);
        LowerKeepsSeparators(Bare(x), '@');
        assert Before(n, '@') == local;
        assert Before(local, '@') == local by { LowerKeepsSeparators(Before(Bare(x), '@'), '@'); }
        KeysAreLocalParts(payload, n);
        KeysAreLocalParts(payload, local);
        if '@' !in n {
          BeforeOfJoin(n, '@', domain);
          assert n + "@" + domain == n + ['@'] + domain;
          KeysAreLocalParts(payload, n + "@" + domain);
        }
      }
    }
  }

  lemma SpaceAround(before: string, text: string, after: string)
    requires IsBlank(before) && IsBlank(after)
    ensures Normalize(before + text + after) == Normalize(text)
    ensures IsBlank(before + text + after) <==> IsBlank(text)
  {
    TrimOfPadded(before, text, after);
    TrimInWords(text);
    TrimInWords(before + text + after);
  }

  /** Whitespace around a reported JID, or around the one looked up, makes no difference. */
  lemma SpaceAroundIsIgnored(before: string, text: string, after: string, online: set<string>, domain: string)
    requires IsBlank(before) && IsBlank(after)
    ensures Keys(Some(before + text + after)) == Keys(Some(text))
    ensures IsOnline(Some(before + text + after), online, domain) <==> IsOnline(Some(text), online, domain)
  {
    hide Normalize, IsBlank, BareUser;
    SpaceAround(before, text, after);
  }

  predicate IsOnlineByTwo(recipient: string, online: set<string>)
  {
    var normalized := Normalize(recipient);
    !IsBlank(recipient) && !IsBlank(normalized) && (normalized in online || BareUser(normalized) in online)
  }

  /** The third lookup, under the server's domain, finds nothing the first two do not. */
  lemma ThirdLookupIsRedundant(payload: seq<Option<string>>, x: string, domain: string)
    requires Tidy(payload) && NoSpace(x)
    ensures IsOnline(Some(x), IndexOf(payload), domain) <==> IsOnlineByTwo(x, IndexOf(payload))
  {
    OnlineMeansSameLocalPart(payload, x, domain);
    if Bare(x) != "" {
      NormalForm(x);
      KeysAreLocalParts(payload, LocalPart(x));
      assert x[0] in x;
    }
  }
}
