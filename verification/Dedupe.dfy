/**
 Collapsing duplicate homes during onboarding: the two identity keys of a listing, and the walk whose
 two hash indices alias the mutable records of the output list, proved to compute the grouping rule
 of module Grouping.
 */
module Dedupe {
  import opened Prelude
  import opened Text
  import opened Grouping

  /** `str(value or "")`. */
  function TextOf(v: Value): string {
    match v
    case Null => ""
    case Str(s) => s
    case Other(text, truthy) => if truthy then text else ""
  }

  // ---------------------------------------------------------------- identity keys

  /** Trailing province and country words that an address key drops. */
  const SUFFIXES: set<string> := {
    "on", "ontario", "bc", "ab", "qc", "ns", "nb", "mb", "sk", "pe", "nl", "nt", "yt", "nu",
    "canada", "ca", "us", "usa"
  }

  predicate IsWordChar(c: char) {
    'a' <= c <= 'z' || '0' <= c <= '9'
  }

  /** The words of the text read so far and the word being read. */
  datatype Scan = Scan(done: seq<string>, open: string)

  function Flush(s: Scan): seq<string> {
    if s.open == "" then s.done else s.done + [s.open]
  }

  function ScanChar(s: Scan, c: char): Scan {
    if IsWordChar(c) then s.(open := s.open + [c]) else Scan(Flush(s), "")
  }

  function ScanText(t: string): Scan {
    if t == "" then Scan([], "") else ScanChar(ScanText(t[..|t| - 1]), t[|t| - 1])
  }

  /** `re.sub(r"[^a-z0-9]+", " ", t).split()`. */
  function Words(t: string): seq<string> {
    Flush(ScanText(t))
  }

  function DropSuffixes(words: seq<string>): (r: seq<string>)
    ensures r <= words
    ensures r != [] ==> r[|r| - 1] !in SUFFIXES
    ensures forall i :: |r| <= i < |words| ==> words[i] in SUFFIXES
  {
    if words != [] && words[|words| - 1] in SUFFIXES then DropSuffixes(words[..|words| - 1]) else words
  }

  /** `" ".join(words)`. */
  function Join(words: seq<string>): string {
    if words == [] then ""
    else if |words| == 1 then words[0]
    else Join(words[..|words| - 1]) + " " + words[|words| - 1]
  }

  function AddrKeyText(address: string): string {
    Join(DropSuffixes(Words(Lower(address))))
  }

  function AddrKey(r: Rec): string {
    AddrKeyText(TextOf(Get(r, ADDRESS)))
  }

  function CodeKey(r: Rec): string {
    Lower(Strip(TextOf(Get(r, CODE))))
  }

  /** `_addr_key`: tokens are popped off the end while they are suffix words. */
  method ComputeAddrKey(address: Value) returns (key: string)
    ensures key == AddrKeyText(TextOf(address))
  {
    var tokens := Words(Lower(TextOf(address)));
    ghost var all := tokens;
    while |tokens| > 0 && tokens[|tokens| - 1] in SUFFIXES
      invariant DropSuffixes(tokens) == DropSuffixes(all)
    {
      tokens := tokens[..|tokens| - 1];
    }
    key := Join(tokens);
  }

  predicate IsWord(w: string) {
    w != "" && forall i :: 0 <= i < |w| ==> IsWordChar(w[i])
  }

  lemma {:induction false} ScanWord(t: string, w: string)
    requires IsWord(w)
    ensures ScanText(t + w) == Scan(ScanText(t).done, ScanText(t).open + w)
  {
    assert (t + w)[..|t + w| - 1] == t + w[..|w| - 1];
    if |w| == 1 {
      assert t + w[..0] == t;
      assert [w[0]] == w;
    } else {
      ScanWord(t, w[..|w| - 1]);
      assert w == w[..|w| - 1] + [w[|w| - 1]];
    }
  }

  /** A separator and a word add exactly that word. */
  lemma WordsSnoc(t: string, sep: char, w: string)
    requires IsWord(w) && !IsWordChar(sep)
    ensures Words(t + [sep] + w) == Words(t) + [w]
  {
    assert (t + [sep])[..|t|] == t;
    assert ScanText(t + [sep]) == Scan(Words(t), "");
    ScanWord(t + [sep], w);
    assert "" + w == w;
  }

  lemma {:induction false} WordsAreWords(t: string)
    ensures forall i :: 0 <= i < |ScanText(t).done| ==> IsWord(ScanText(t).done[i])
    ensures ScanText(t).open == "" || IsWord(ScanText(t).open)
    ensures forall i :: 0 <= i < |Words(t)| ==> IsWord(Words(t)[i])
  {
    if t != "" {
      WordsAreWords(t[..|t| - 1]);
    }
  }

  /** Splitting undoes joining. */
  lemma {:induction false} WordsOfJoin(words: seq<string>)
    requires forall i :: 0 <= i < |words| ==> IsWord(words[i])
    ensures Words(Join(words)) == words
  {
    if |words| == 1 {
      ScanWord("", words[0]);
      assert "" + words[0] == words[0];
    } else if |words| > 1 {
      var last := |words| - 1;
      WordsOfJoin(words[..last]);
      WordsSnoc(Join(words[..last]), ' ', words[last]);
      assert words[..last] + [words[last]] == words;
    }
  }

  lemma {:induction false} JoinIsLower(words: seq<string>)
    requires forall i :: 0 <= i < |words| ==> IsWord(words[i])
    ensures Lower(Join(words)) == Join(words)
  {
    if |words| > 1 {
      JoinIsLower(words[..|words| - 1]);
      assert IsWord(words[|words| - 1]);
    } else if |words| == 1 {
      assert IsWord(words[0]);
    }
  }

  /** An address key is its own key. */
  lemma AddrKeyIdempotent(address: string)
    ensures AddrKeyText(AddrKeyText(address)) == AddrKeyText(address)
  {
    var words := DropSuffixes(Words(Lower(address)));
    WordsAreWords(Lower(address));
    JoinIsLower(words);
    WordsOfJoin(words);
    assert DropSuffixes(words) == words;
  }

  predicate NamesRegion(w: string) {
    w in {"on", "ontario", "bc", "ab", "qc", "ns", "nb", "mb", "sk", "pe", "nl", "nt", "yt", "nu"} ||
    w in {"canada", "ca", "us", "usa"}
  }

  lemma RegionIsSuffix(w: string)
    requires NamesRegion(w)
    ensures w in SUFFIXES && IsWord(w)
  {
  }

  /** A trailing province or country in any letter case leaves the key unchanged, so the structured
      and the spoken form of an address share a key. */
  lemma AddrKeyIgnoresSuffix(address: string, suffix: string)
    requires NamesRegion(Lower(suffix))
    ensures AddrKeyText(address + ", " + suffix) == AddrKeyText(address)
  {
    var w := Lower(suffix);
    RegionIsSuffix(w);
    var a := Lower(address);
    assert Lower(address + ", " + suffix) == a + ", " + w;
    assert a + ", " + w == (a + ",") + [' '] + w;
    WordsSnoc(a + ",", ' ', w);
    assert (a + ",")[..|a|] == a;
    assert Words(a + ",") == Words(a);
    assert (Words(a) + [w])[..|Words(a)|] == Words(a);
  }

  // ---------------------------------------------------------------- what the keys keep

  /** A letter of either case or a digit. */
  predicate Alphanumeric(c: char) {
    '0' <= c <= '9' || 'a' <= c <= 'z' || 'A' <= c <= 'Z'
  }

  /** Words with separators before, between and behind them. */
  function Weave(seps: seq<string>, words: seq<string>): string
    requires |seps| == |words| + 1
  {
    if words == [] then seps[0]
    else Weave(seps[..|words|], words[..|words| - 1]) + words[|words| - 1] + seps[|words|]
  }

  /** Words of letters and digits, none empty, and separators without any, none empty between words. */
  predicate Woven(seps: seq<string>, words: seq<string>) {
    && |seps| == |words| + 1
    && (forall i :: 0 <= i < |words| ==>
          words[i] != "" && forall j :: 0 <= j < |words[i]| ==> Alphanumeric(words[i][j]))
    && (forall i :: 0 <= i < |seps| ==> forall j :: 0 <= j < |seps[i]| ==> !Alphanumeric(seps[i][j]))
    && (forall i :: 0 < i < |words| ==> seps[i] != "")
  }

  function LowerAll(words: seq<string>): (r: seq<string>)
    ensures |r| == |words| && forall i :: 0 <= i < |r| ==> r[i] == Lower(words[i])
  {
    seq(|words|, i requires 0 <= i < |words| => Lower(words[i]))
  }

  lemma LowerConcat(s: string, t: string)
    ensures Lower(s + t) == Lower(s) + Lower(t)
  {
  }

  lemma {:induction false} ScanSeparators(t: string, sep: string)
    requires sep != "" && forall j :: 0 <= j < |sep| ==> !IsWordChar(sep[j])
    ensures ScanText(t + sep) == Scan(Words(t), "")
  {
    var front := sep[..|sep| - 1];
    assert (t + sep)[..|t + sep| - 1] == t + front;
    if front == "" {
      assert t + front == t;
    } else {
      ScanSeparators(t, front);
    }
  }

  lemma LowerWord(w: string)
    requires w != "" && forall j :: 0 <= j < |w| ==> Alphanumeric(w[j])
    ensures IsWord(Lower(w))
  {
    assert forall j :: 0 <= j < |w| ==> IsWordChar(LowerChar(w[j]));
  }

  lemma LowerSeparators(sep: string)
    requires forall j :: 0 <= j < |sep| ==> !Alphanumeric(sep[j])
    ensures forall j :: 0 <= j < |sep| ==> !IsWordChar(Lower(sep)[j])
  {
  }

  /** One more word, and a separator behind it or none. */
  lemma ScanMore(t: string, done: seq<string>, w: string, sep: string)
    requires ScanText(t) == Scan(done, "") && IsWord(w) && forall j :: 0 <= j < |sep| ==> !IsWordChar(sep[j])
    ensures ScanText(t + w + sep) == if sep == "" then Scan(done, w) else Scan(done + [w], "")
  {
    ScanWord(t, w);
    assert "" + w == w;
    if sep == "" {
      assert t + w + sep == t + w;
    } else {
      ScanSeparators(t + w, sep);
    }
  }

  /** The scan of a weave, with its last separator or without one. */
  lemma {:induction false} ScanWeave(seps: seq<string>, words: seq<string>)
    requires Woven(seps, words)
    ensures ScanText(Lower(Weave(seps, words))) ==
            if words == [] || seps[|words|] != "" then Scan(LowerAll(words), "")
            else Scan(LowerAll(words[..|words| - 1]), Lower(words[|words| - 1]))
  {
    var n := |words|;
    LowerSeparators(seps[n]);
    if n == 0 {
      ScanOnly(Lower(seps[0]));
    } else {
      WovenFront(seps, words);
      ScanWeave(seps[..n], words[..n - 1]);
      LowerAllFront(words);
      LowerWord(words[n - 1]);
      var t := Weave(seps[..n], words[..n - 1]);
      assert Weave(seps, words) == t + words[n - 1] + seps[n];
      WeaveMore(t, LowerAll(words[..n - 1]), words[n - 1], seps[n]);
    }
  }

  lemma ScanOnly(sep: string)
    requires forall j :: 0 <= j < |sep| ==> !IsWordChar(sep[j])
    ensures ScanText(sep) == Scan([], "")
  {
    assert "" + sep == sep;
    if sep != "" {
      ScanSeparators("", sep);
    }
  }

  lemma LowerAllFront(words: seq<string>)
    requires words != []
    ensures LowerAll(words) == LowerAll(words[..|words| - 1]) + [Lower(words[|words| - 1])]
  {
  }

  lemma WeaveMore(t: string, done: seq<string>, w: string, sep: string)
    requires ScanText(Lower(t)) == Scan(done, "") && IsWord(Lower(w))
    requires forall j :: 0 <= j < |sep| ==> !IsWordChar(Lower(sep)[j])
    ensures ScanText(Lower(t + w + sep)) == if sep == "" then Scan(done, Lower(w)) else Scan(done + [Lower(w)], "")
  {
    LowerConcat(t + w, sep);
    LowerConcat(t, w);
    ScanMore(Lower(t), done, Lower(w), Lower(sep));
  }

  lemma WovenFront(seps: seq<string>, words: seq<string>)
    requires Woven(seps, words) && words != []
    ensures var n := |words|; Woven(seps[..n], words[..n - 1]) && (n > 1 ==> seps[n - 1] != "")
  {
  }

  /** The words of an address are exactly its runs of letters and digits, in lower case. */
  lemma WordsOfWeave(seps: seq<string>, words: seq<string>)
    requires Woven(seps, words)
    ensures Words(Lower(Weave(seps, words))) == LowerAll(words)
  {
    ScanWeave(seps, words);
    if words != [] {
      LowerWord(words[|words| - 1]);
      assert LowerAll(words) == LowerAll(words[..|words| - 1]) + [Lower(words[|words| - 1])];
    }
  }

  /** Every text is such a weave. */
  lemma {:induction false} Unweave(t: string) returns (seps: seq<string>, words: seq<string>)
    ensures Woven(seps, words) && Weave(seps, words) == t
  {
    if t == "" {
      return [""], [];
    }
    var c := t[|t| - 1];
    var s, w := Unweave(t[..|t| - 1]);
    var n := |w|;
    assert t == t[..|t| - 1] + [c];
    if !Alphanumeric(c) {
      seps, words := s[n := s[n] + [c]], w;
      assert n > 0 ==> seps[..n] == s[..n];
    } else if n > 0 && s[n] == "" {
      seps, words := s, w[n - 1 := w[n - 1] + [c]];
      assert words[..n - 1] == w[..n - 1];
    } else {
      seps, words := s + [""], w + [[c]];
      assert seps[..n + 1] == s && words[..n] == w;
    }
  }

  /** The words an address key keeps: all but the trailing provinces and countries. */
  predicate Keeps(kept: seq<string>, tail: seq<string>) {
    && (kept != [] ==> Lower(kept[|kept| - 1]) !in SUFFIXES)
    && forall i :: 0 <= i < |tail| ==> Lower(tail[i]) in SUFFIXES
  }

  lemma {:induction false} DropTail(kept: seq<string>, tail: seq<string>)
    requires kept != [] ==> kept[|kept| - 1] !in SUFFIXES
    requires forall i :: 0 <= i < |tail| ==> tail[i] in SUFFIXES
    ensures DropSuffixes(kept + tail) == kept
  {
    var r, all := DropSuffixes(kept + tail), kept + tail;
    assert forall i :: |kept| <= i < |all| ==> all[i] in SUFFIXES;
    assert kept != [] ==> all[|kept| - 1] == kept[|kept| - 1];
    assert r == all[..|r|] && |r| == |kept|;
  }

  /** An address key is the address's words in lower case, one space between them, without the trailing ones. */
  lemma AddrKeyIs(seps: seq<string>, kept: seq<string>, tail: seq<string>)
    requires Woven(seps, kept + tail) && Keeps(kept, tail)
    ensures AddrKeyText(Weave(seps, kept + tail)) == Join(LowerAll(kept))
  {
    WordsOfWeave(seps, kept + tail);
    LowerAllConcat(kept, tail);
    DropTail(LowerAll(kept), LowerAll(tail));
  }

  lemma LowerAllConcat(a: seq<string>, b: seq<string>)
    ensures LowerAll(a + b) == LowerAll(a) + LowerAll(b)
  {
  }

  /** Two addresses have one key exactly when they have the same words before the trailing ones, letter by letter but
      for case, whatever stands between the words. */
  lemma AddressesShareKeyIff(seps: seq<string>, kept: seq<string>, tail: seq<string>,
                             seps': seq<string>, kept': seq<string>, tail': seq<string>)
    requires Woven(seps, kept + tail) && Keeps(kept, tail) && Woven(seps', kept' + tail') && Keeps(kept', tail')
    ensures AddrKeyText(Weave(seps, kept + tail)) == AddrKeyText(Weave(seps', kept' + tail')) <==>
            LowerAll(kept) == LowerAll(kept')
  {
    AddrKeyIs(seps, kept, tail);
    AddrKeyIs(seps', kept', tail');
    KeptAreWords(kept, tail);
    KeptAreWords(kept', tail');
    WordsOfJoin(LowerAll(kept));
    WordsOfJoin(LowerAll(kept'));
  }

  lemma KeptAreWords(kept: seq<string>, tail: seq<string>)
    requires exists seps :: Woven(seps, kept + tail)
    ensures forall i :: 0 <= i < |kept| ==> IsWord(LowerAll(kept)[i])
  {
    forall i | 0 <= i < |kept| ensures IsWord(LowerAll(kept)[i]) {
      assert (kept + tail)[i] == kept[i];
      LowerWord(kept[i]);
    }
  }

  /** `str(value or "")`, by cases. */
  predicate HasText(v: Value, t: string) {
    v == Str(t) || v == Other(t, true) || (t == "" && (v == Null || (v.Other? && !v.truthy)))
  }

  /** Two codes have one key exactly when they agree, letter by letter but for case, between their outer white space. */
  lemma CodesShareKeyIff(r: Rec, left: string, code: string, right: string,
                         r': Rec, left': string, code': string, right': string)
    requires HasText(Get(r, CODE), left + code + right) && AllBlank(left) && Trimmed(code) && AllBlank(right)
    requires HasText(Get(r', CODE), left' + code' + right') && AllBlank(left') && Trimmed(code') && AllBlank(right')
    ensures CodeKey(r) == CodeKey(r') <==>
            |code| == |code'| && forall i :: 0 <= i < |code| ==> SameLetter(code[i], code'[i])
  {
    StripIs(left, code, right);
    StripIs(left', code', right');
    LowerIff(code, code');
  }

  // ---------------------------------------------------------------- dedupe on values

  function Keyed(r: Rec): Item {
    Item(CodeKey(r), AddrKey(r), r)
  }

  function KeyedAll(listings: seq<Rec>): (items: seq<Item>)
    ensures |items| == |listings| && forall i :: 0 <= i < |items| ==> items[i] == Keyed(listings[i])
  {
    seq(|listings|, i requires 0 <= i < |listings| => Keyed(listings[i]))
  }

  /** What `_dedupe` returns, by the grouping rule. */
  function Deduped(listings: seq<Rec>): seq<Rec> {
    Groups(KeyedAll(listings))
  }

  lemma KeyedIsWellKeyed(r: Rec)
    ensures Keyed(r).WellKeyed()
  {
    if Blank(Get(r, CODE)) {
      assert TextOf(Get(r, CODE)) == "";
      assert CodeKey(r) == "";
    }
    if Blank(Get(r, ADDRESS)) {
      assert TextOf(Get(r, ADDRESS)) == "";
      assert Words(Lower("")) == [];
    }
  }

  /** Keys depend on their own field only. */
  lemma KeysOfField(r: Rec, s: Rec)
    ensures Get(r, CODE) == Get(s, CODE) ==> CodeKey(r) == CodeKey(s)
    ensures Get(r, ADDRESS) == Get(s, ADDRESS) ==> AddrKey(r) == AddrKey(s)
  {
  }

  /** The keys of an output are the keys of the members its code and address came from. */
  lemma OutputKeys(listings: seq<Rec>, g: nat)
    requires g < |Deduped(listings)|
    ensures var items := KeyedAll(listings); var n := |items|; var l := Leaders(items, n)[g];
      var c, a := FirstFilled(items, n, l, CODE), FirstFilled(items, n, l, ADDRESS);
      l < n && Opens(items, l) &&
      CodeKey(Deduped(listings)[g]) == (if c.Some? then items[c.value].code else "") &&
      AddrKey(Deduped(listings)[g]) == (if a.Some? then items[a.value].addr else "") &&
      (CodeKey(Deduped(listings)[g]) != "" || AddrKey(Deduped(listings)[g]) != "")
  {
    var items := KeyedAll(listings);
    var n := |items|;
    LeadersOpen(items, n, g);
    var l := Leaders(items, n)[g];
    var r := Deduped(listings)[g];
    OutputKey(items, n, l, r, CODE);
    OutputKey(items, n, l, r, ADDRESS);
    KeyedIsWellKeyed(listings[l]);
    if items[l].code != "" {
      LeaderShows(items, n, l, CODE);
    } else {
      LeaderShows(items, n, l, ADDRESS);
    }
  }

  lemma OutputKey(items: seq<Item>, n: nat, l: nat, r: Rec, k: string)
    requires l < n <= |items| && Opens(items, l) && r == Group(items, n, l) && (k == CODE || k == ADDRESS)
    requires forall i :: 0 <= i < |items| ==> items[i] == Keyed(items[i].fields)
    ensures var f := FirstFilled(items, n, l, k);
      if k == CODE then CodeKey(r) == (if f.Some? then items[f.value].code else "")
      else AddrKey(r) == (if f.Some? then items[f.value].addr else "")
  {
    var f := FirstFilled(items, n, l, k);
    GroupField(items, n, l, k);
    if f.Some? {
      KeysOfField(r, items[f.value].fields);
      assert items[f.value] == Keyed(items[f.value].fields);
    } else {
      FirstFilledIs(items, n, l, k);
      assert Member(items, l, l);
      assert !Fills(items, l, l, k);
      assert Blank(Get(r, k));
      KeyedIsWellKeyed(r);
    }
  }

  // ---------------------------------------------------------------- main results

  /** Two outputs with the same non-empty address key. */
  ghost predicate SharesAddress(out: seq<Rec>) {
    exists g, h :: 0 <= g < h < |out| && AddrKey(out[g]) == AddrKey(out[h]) != ""
  }

  /** Two outputs with the same non-empty code key. */
  ghost predicate SharesCode(out: seq<Rec>) {
    exists g, h :: 0 <= g < h < |out| && CodeKey(out[g]) == CodeKey(out[h]) != ""
  }

  lemma CodesApart(listings: seq<Rec>, g: nat, h: nat)
    requires g < h < |Deduped(listings)| && CodeKey(Deduped(listings)[g]) != ""
    ensures CodeKey(Deduped(listings)[g]) != CodeKey(Deduped(listings)[h])
  {
    var items := KeyedAll(listings);
    OutputKeys(listings, g);
    OutputKeys(listings, h);
    LeadersAscend(items, |items|);
    var l, m := Leaders(items, |items|)[g], Leaders(items, |items|)[h];
    if FirstFilled(items, |items|, m, CODE).Some? {
      CodesStayDistinct(items, |items|, l, m);
    }
  }

  /** Output codes never collide: pairwise distinct non-empty code keys, for every input list. */
  lemma CodesDistinct(listings: seq<Rec>)
    ensures !SharesCode(Deduped(listings))
  {
    var out := Deduped(listings);
    if g, h :| 0 <= g < h < |out| && CodeKey(out[g]) == CodeKey(out[h]) != "" {
      CodesApart(listings, g, h);
    }
  }

  lemma SharesThenShared(listings: seq<Rec>, g: nat, h: nat)
    requires g < h < |Deduped(listings)| && AddrKey(Deduped(listings)[g]) == AddrKey(Deduped(listings)[h]) != ""
    ensures SharedAddress(KeyedAll(listings), |listings|)
  {
    var items := KeyedAll(listings);
    var leaders := Leaders(items, |items|);
    LeadersAscend(items, |items|);
    OutputKeys(listings, g);
    OutputKeys(listings, h);
    assert SameAddr(items, |items|, leaders[g], leaders[h]);
  }

  lemma SharedThenShares(listings: seq<Rec>, l: nat, m: nat)
    requires var items := KeyedAll(listings); l < m < |items| && Opens(items, l) && Opens(items, m)
    requires SameAddr(KeyedAll(listings), |listings|, l, m)
    ensures SharesAddress(Deduped(listings))
  {
    var g := OutputOf(listings, l);
    var h := OutputOf(listings, m);
    LeadersAscend(KeyedAll(listings), |listings|);
    InTheirOrder(Leaders(KeyedAll(listings), |listings|), g, h);
    Sharing(Deduped(listings), g, h);
  }

  lemma InTheirOrder(leaders: seq<nat>, g: nat, h: nat)
    requires Ascending(leaders) && g < |leaders| && h < |leaders| && leaders[g] < leaders[h]
    ensures g < h
  {
  }

  lemma Sharing(out: seq<Rec>, g: nat, h: nat)
    requires g < h < |out| && AddrKey(out[g]) == AddrKey(out[h]) != ""
    ensures SharesAddress(out)
  {
  }

  /** The output of an opener, and the address it shows. */
  lemma OutputOf(listings: seq<Rec>, l: nat) returns (g: nat)
    requires l < |listings| && Opens(KeyedAll(listings), l)
    requires FirstFilled(KeyedAll(listings), |listings|, l, ADDRESS).Some?
    ensures var items := KeyedAll(listings);
      && g < |Deduped(listings)| && g < |Leaders(items, |items|)| && Leaders(items, |items|)[g] == l
      && AddrKey(Deduped(listings)[g]) == items[FirstFilled(items, |listings|, l, ADDRESS).value].addr
  {
    var items := KeyedAll(listings);
    OpenersLead(items, |items|, l);
    g :| 0 <= g < |Leaders(items, |items|)| && Leaders(items, |items|)[g] == l;
    OutputKeys(listings, g);
  }

  lemma SharedGivesShares(listings: seq<Rec>)
    requires SharedAddress(KeyedAll(listings), |listings|)
    ensures SharesAddress(Deduped(listings))
  {
    var items, n := KeyedAll(listings), |listings|;
    var l, m :| 0 <= l < n && 0 <= m < n && l != m && Opens(items, l) && Opens(items, m) && SameAddr(items, n, l, m);
    SharedThenShares(listings, if l < m then l else m, if l < m then m else l);
  }

  lemma SharesAddressIsShared(listings: seq<Rec>)
    ensures SharesAddress(Deduped(listings)) <==> SharedAddress(KeyedAll(listings), |listings|)
  {
    var out := Deduped(listings);
    if g, h :| 0 <= g < h < |out| && AddrKey(out[g]) == AddrKey(out[h]) != "" {
      SharesThenShared(listings, g, h);
    }
    if SharedAddress(KeyedAll(listings), |listings|) {
      SharedGivesShares(listings);
    }
  }

  /** Output addresses collide exactly when some record, while it joins by code a group that has no
      address yet, brings an address another group already shows. */
  lemma AddressesDistinctIff(listings: seq<Rec>)
    ensures SharesAddress(Deduped(listings)) <==>
            exists j :: 0 <= j < |listings| && FillCollision(KeyedAll(listings), j)
  {
    forall r | 0 <= r < |listings|
      ensures KeyedAll(listings)[r].WellKeyed()
    {
      KeyedIsWellKeyed(listings[r]);
    }
    SharesAddressIsShared(listings);
    SharedAddressIff(KeyedAll(listings));
  }

  /** When every input has a non-blank address, output addresses never collide. */
  lemma AddressesDistinctWhenAddressed(listings: seq<Rec>)
    requires forall r :: 0 <= r < |listings| ==> !Blank(Get(listings[r], ADDRESS))
    ensures !SharesAddress(Deduped(listings))
  {
    forall r | 0 <= r < |listings|
      ensures KeyedAll(listings)[r].WellKeyed() && !Blank(Get(KeyedAll(listings)[r].fields, ADDRESS))
    {
      KeyedIsWellKeyed(listings[r]);
    }
    SharesAddressIsShared(listings);
    AllAddressedNeverShare(KeyedAll(listings));
  }

  /** Deduping the output again returns it unchanged exactly when its addresses are distinct. */
  lemma IdempotentIff(listings: seq<Rec>)
    ensures Deduped(Deduped(listings)) == Deduped(listings) <==> !SharesAddress(Deduped(listings))
  {
    var out := Deduped(listings);
    var items := KeyedAll(out);
    forall g | 0 <= g < |out|
      ensures items[g].Identified() && items[g].fields == out[g]
    {
      OutputKeys(listings, g);
    }
    forall g, h | 0 <= g < h < |out| && items[h].code != ""
      ensures items[g].code != items[h].code
    {
      if items[g].code != "" {
        CodesApart(listings, g, h);
      }
    }
    UnchangedIffDistinct(items);
    assert Deduped(out) == out <==>
      |Groups(items)| == |items| && forall i :: 0 <= i < |items| ==> Groups(items)[i] == items[i].fields;
  }

  /** The collision happens: A without an address, B at x, then A at x. */
  lemma CollisionExample()
    ensures var a, b, c := map[CODE := Str("a")], map[CODE := Str("b"), ADDRESS := Str("x")],
                           map[CODE := Str("a"), ADDRESS := Str("x")];
      SharesAddress(Deduped([a, b, c]))
  {
    var a, b, c := map[CODE := Str("a")], map[CODE := Str("b"), ADDRESS := Str("x")],
                   map[CODE := Str("a"), ADDRESS := Str("x")];
    CodedKeys(a, 'a');
    PlacedKeys(b, 'b', 'x');
    PlacedKeys(c, 'a', 'x');
    CollisionOn(a, b, c);
  }

  lemma CodedKeys(r: Rec, code: char)
    requires r == map[CODE := Str([code])] && IsWordChar(code)
    ensures Keyed(r) == Item([code], "", r) && Blank(Get(r, ADDRESS))
  {
    OneLetterKeys(r, code, "");
  }

  lemma PlacedKeys(r: Rec, code: char, address: char)
    requires r == map[CODE := Str([code]), ADDRESS := Str([address])] && IsWordChar(code) && IsWordChar(address)
    ensures Keyed(r) == Item([code], [address], r) && !Blank(Get(r, ADDRESS))
  {
    OneLetterKeys(r, code, [address]);
  }

  lemma CollisionOn(a: Rec, b: Rec, c: Rec)
    requires Keyed(a) == Item("a", "", a) && Keyed(b) == Item("b", "x", b) && Keyed(c) == Item("a", "x", c)
    requires Blank(Get(a, ADDRESS)) && !Blank(Get(b, ADDRESS))
    ensures SharesAddress(Deduped([a, b, c]))
  {
    ThirdCollides(KeyedAll([a, b, c]));
    AddressesDistinctIff([a, b, c]);
  }

  lemma ThirdCollides(items: seq<Item>)
    requires |items| == 3 && items[0].code == items[2].code != "" && items[1].code !in {"", items[0].code}
    requires items[0].addr == "" && items[1].addr == items[2].addr != ""
    requires Blank(Get(items[0].fields, ADDRESS)) && !Blank(Get(items[1].fields, ADDRESS))
    ensures FillCollision(items, 2)
  {
    assert Opens(items, 0) && Opens(items, 1);
    assert FirstCode(items, 2, items[2].code) == Some(0) && Leader(items, 2) == 0;
    assert Fills(items, 1, 1, ADDRESS);
    FirstFilledIs(items, 2, 1, ADDRESS);
    FirstFilledIs(items, 2, 0, ADDRESS);
    assert Shows(items, 2, 1, items[2].addr);
  }

  /** The rule is greedy, not a transitive closure: A at x, B at y, then A at y leaves two records. */
  lemma GreedyExample()
    ensures var a, b, c := map[CODE := Str("a"), ADDRESS := Str("x")], map[CODE := Str("b"), ADDRESS := Str("y")],
                           map[CODE := Str("a"), ADDRESS := Str("y")];
      |Deduped([a, b, c])| == 2
  {
    var a, b, c := map[CODE := Str("a"), ADDRESS := Str("x")], map[CODE := Str("b"), ADDRESS := Str("y")],
                   map[CODE := Str("a"), ADDRESS := Str("y")];
    PlacedKeys(a, 'a', 'x');
    PlacedKeys(b, 'b', 'y');
    PlacedKeys(c, 'a', 'y');
    GreedyOn(a, b, c);
  }

  lemma GreedyOn(a: Rec, b: Rec, c: Rec)
    requires Keyed(a) == Item("a", "x", a) && Keyed(b) == Item("b", "y", b) && Keyed(c) == Item("a", "y", c)
    ensures |Deduped([a, b, c])| == 2
  {
    TwoLeaders(KeyedAll([a, b, c]));
  }

  /** House numbers count: two homes of one street stay two. */
  lemma NeighboursStay()
    ensures var a, b := map[ADDRESS := Str("12 Main St")], map[ADDRESS := Str("34 Main St")];
      Deduped([a, b]) == [a, b]
  {
    var a, b := map[ADDRESS := Str("12 Main St")], map[ADDRESS := Str("34 Main St")];
    MainStreetKeys();
    AtKeys(a, "12 Main St");
    AtKeys(b, "34 Main St");
    ApartStay(a, b);
  }

  lemma MainStreetKeys()
    ensures AddrKeyText("12 Main St") != AddrKeyText("34 Main St")
    ensures AddrKeyText("12 Main St") != "" && AddrKeyText("34 Main St") != ""
  {
    MainStreet("12");
    MainStreet("34");
    assert "12" + " Main St" == "12 Main St" && "34" + " Main St" == "34 Main St";
    assert ("12" + " main st")[0] != ("34" + " main st")[0];
  }

  lemma AtKeys(r: Rec, address: string)
    requires r == map[ADDRESS := Str(address)]
    ensures Get(r, CODE) == Null && AddrKey(r) == AddrKeyText(address)
  {
  }

  /** Two listings without codes and under different addresses stay two. */
  lemma ApartStay(a: Rec, b: Rec)
    requires Get(a, CODE) == Null == Get(b, CODE) && AddrKey(a) != "" && AddrKey(b) != "" && AddrKey(a) != AddrKey(b)
    ensures Deduped([a, b]) == [a, b]
  {
    assert Lower(Strip("")) == "";
    UnchangedIffDistinct(KeyedAll([a, b]));
  }

  lemma MainStreet(number: string)
    requires number == "12" || number == "34"
    ensures AddrKeyText(number + " Main St") == number + " main st"
  {
    WeaveThree(number);
    assert Lower("Main") == "main" && Lower("St") == "st" && Lower(number) == number;
    AddrKeyIs(["", " ", " ", ""], [number, "Main", "St"], []);
    JoinThree(number);
  }

  lemma WeaveThree(number: string)
    ensures var seps, words := ["", " ", " ", ""], [number, "Main", "St"];
      Weave(seps, words + []) == number + " Main St"
  {
    var seps, words := ["", " ", " ", ""], [number, "Main", "St"];
    assert words + [] == words;
    assert seps[..3] == ["", " ", " "] && words[..2] == [number, "Main"];
    assert ["", " ", " "][..2] == ["", " "] && [number, "Main"][..1] == [number];
    assert ["", " "][..1] == [""] && [number][..0] == [];
    assert Weave([""], []) == "";
    assert Weave(["", " "], [number]) == number + " ";
    assert Weave(["", " ", " "], [number, "Main"]) == number + " Main ";
    assert Weave(seps, words) == number + " Main St";
  }

  lemma JoinThree(number: string)
    ensures Join(LowerAll([number, "Main", "St"])) == Lower(number) + " main st"
  {
    assert Lower("Main") == "main" && Lower("St") == "st";
    var words := [Lower(number), "main", "st"];
    assert LowerAll([number, "Main", "St"]) == words;
    assert words[..2] == [Lower(number), "main"] && words[..2][..1] == [Lower(number)];
    assert Join(words[..2]) == Lower(number) + " main";
  }

  lemma TwoLeaders(items: seq<Item>)
    requires |items| == 3 && items[0].code == items[2].code != "" && items[1].code !in {"", items[0].code}
    requires items[0].addr != items[1].addr
    ensures Leaders(items, 3) == [0, 1]
  {
    assert Opens(items, 0) && Opens(items, 1) && ByCode(items, 2);
    assert Leaders(items, 1) == [0] && Leaders(items, 2) == [0, 1];
  }

  lemma OneLetterKeys(r: Rec, code: char, address: string)
    requires Get(r, CODE) == Str([code]) && IsWordChar(code)
    requires Get(r, ADDRESS) == (if address == "" then Null else Str(address))
    requires |address| <= 1 && (address != "" ==> IsWordChar(address[0]))
    ensures Keyed(r) == Item([code], address, r)
  {
    assert StripLeft([code]) == [code] && Strip([code]) == [code] && Lower([code]) == [code];
    OneLetterAddress(address);
  }

  lemma SuffixesAreLong(s: string)
    requires s in SUFFIXES
    ensures |s| >= 2
  {
  }

  lemma OneLetterAddress(address: string)
    requires |address| <= 1 && (address != "" ==> IsWordChar(address[0]))
    ensures AddrKeyText(address) == address
  {
    assert Lower(address) == address;
    if address == "" {
      assert Words("") == [];
    } else {
      ScanWord("", address);
      assert "" + address == address;
      assert Words(address) == [address];
      if address in SUFFIXES {
        SuffixesAreLong(address);
      }
    }
  }

  // ---------------------------------------------------------------- the code's own form

  lemma KeyedSnoc(listings: seq<Rec>, n: nat)
    requires n < |listings|
    ensures KeyedAll(listings)[..n + 1] == KeyedAll(listings)[..n] + [Keyed(listings[n])]
  {
  }

  /** The listings with their identity keys. */
  method ComputeKeys(listings: seq<Rec>) returns (items: seq<Item>)
    ensures items == KeyedAll(listings)
  {
    items := [];
    for n := 0 to |listings|
      invariant items == KeyedAll(listings)[..n]
    {
      var addrKey := ComputeAddrKey(Get(listings[n], ADDRESS));
      KeyedSnoc(listings, n);
      items := items + [Item(CodeKey(listings[n]), addrKey, listings[n])];
    }
    assert KeyedAll(listings)[..|listings|] == KeyedAll(listings);
  }

  /** `_dedupe`: the output records are new, distinct objects holding exactly the groups' merges. */
  method Dedupe(listings: seq<Rec>) returns (out: seq<Record>)
    ensures forall g :: 0 <= g < |out| ==> fresh(out[g])
    ensures forall g, h :: 0 <= g < h < |out| ==> out[g] != out[h]
    ensures |out| == |Deduped(listings)|
    ensures forall g :: 0 <= g < |out| ==> out[g].fields == Deduped(listings)[g]
  {
    var items := ComputeKeys(listings);
    var byCode, byAddr;
    out, byCode, byAddr := WalkInPlace(items);
    WalkIsGrouping(items);
  }
}
