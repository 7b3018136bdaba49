/** Label selectors of k8s_util.py: a dict printed as "k1=v1,k2=v2" and parsed back. */
module LabelSelector {
  import opened Basics

  type Labels = map<string, string>

  // ---------- str.join and str.split ----------

  function Join(pieces: seq<string>, sep: char): string {
    if pieces == [] then ""
    else if |pieces| == 1 then pieces[0]
    else pieces[0] + [sep] + Join(pieces[1..], sep)
  }

  function Split(s: string, sep: char): (pieces: seq<string>)
    ensures pieces != []
  {
    if s == "" then [""]
    else
      var rest := Split(s[1..], sep);
      if s[0] == sep then [""] + rest else [[s[0]] + rest[0]] + rest[1..]
  }

  /** A piece without the separator in front of a text that starts with one, or of nothing. */
  lemma {:induction false} SplitPiece(piece: string, tail: string, sep: char)
    requires sep !in piece && (tail == "" || tail[0] == sep)
    ensures Split(piece + tail, sep) == [piece] + if tail == "" then [] else Split(tail[1..], sep)
  {
    if piece == "" {
      assert piece + tail == tail;
    } else {
      assert (piece + tail)[1..] == piece[1..] + tail;
      SplitPiece(piece[1..], tail, sep);
      assert [piece[0]] + piece[1..] == piece;
    }
  }

  /** split undoes join for pieces that do not contain the separator. */
  lemma {:induction false} SplitJoin(pieces: seq<string>, sep: char)
    requires pieces != [] && forall i :: 0 <= i < |pieces| ==> sep !in pieces[i]
    ensures Split(Join(pieces, sep), sep) == pieces
  {
    if |pieces| == 1 {
      SplitPiece(pieces[0], "", sep);
      assert pieces[0] + "" == pieces[0];
      assert pieces == [pieces[0]];
    } else {
      var tail := [sep] + Join(pieces[1..], sep);
      SplitPiece(pieces[0], tail, sep);
      assert pieces[0] + [sep] + Join(pieces[1..], sep) == pieces[0] + tail;
      assert tail[1..] == Join(pieces[1..], sep);
      SplitJoin(pieces[1..], sep);
    }
  }

  /** Pieces are made of characters of the text, and never contain the separator. */
  lemma {:induction false} PiecesAreClean(s: string, sep: char, i: nat, c: char)
    requires i < |Split(s, sep)| && c in Split(s, sep)[i]
    ensures c in s && c != sep
  {
    var rest := Split(s[1..], sep);
    if s[0] == sep {
      PiecesAreClean(s[1..], sep, i - 1, c);
    } else if i > 0 {
      PiecesAreClean(s[1..], sep, i, c);
    } else if c != s[0] {
      PiecesAreClean(s[1..], sep, 0, c);
    }
  }

  function Count(s: string, c: char): nat {
    if s == "" then 0 else (if s[0] == c then 1 else 0) + Count(s[1..], c)
  }

  /** There is one piece more than there are separators, and join undoes split, for every text. */
  lemma {:induction false} JoinSplit(s: string, sep: char)
    ensures |Split(s, sep)| == Count(s, sep) + 1
    ensures Join(Split(s, sep), sep) == s
  {
    if s != "" {
      JoinSplit(s[1..], sep);
      var rest := Split(s[1..], sep);
      if s[0] == sep {
        assert Split(s, sep)[1..] == rest;
        assert s == "" + [sep] + s[1..];
      } else {
        assert Split(s, sep)[1..] == rest[1..];
        assert s == [s[0]] + s[1..];
        if |rest| > 1 {
          assert [s[0]] + (rest[0] + [sep] + Join(rest[1..], sep)) == [s[0]] + rest[0] + [sep] + Join(rest[1..], sep);
        }
      }
    }
  }

  // ---------- Printing and parsing ----------

  function Item(pair: (string, string)): string {
    pair.0 + "=" + pair.1
  }

  function Items(labels: seq<(string, string)>): seq<string> {
    seq(|labels|, i requires 0 <= i < |labels| => Item(labels[i]))
  }

  /** `gen_k8s_label_selector_from_dict`, for a dict that iterates in the order `labels`. */
  function Print(labels: seq<(string, string)>): string {
    Join(Items(labels), ',')
  }

  /** The dict comprehension over the items; None is the ValueError of an item that does not have
      exactly one '='. Later items override earlier ones. */
  function ParseItems(items: seq<string>): Option<Labels> {
    if items == [] then Some(map[])
    else
      var before := ParseItems(items[..|items| - 1]);
      var parts := Split(items[|items| - 1], '=');
      if before.None? || |parts| != 2 then None else Some(before.value[parts[0] := parts[1]])
  }

  /** `gen_dict_from_k8s_label_selector`. */
  function Parse(selector: string): Option<Labels> {
    ParseItems(Split(selector, ','))
  }

  // ---------- What parses, and to what ----------

  /** Items parse if and only if each of them has exactly one '='. */
  lemma {:induction false} ParsesExactly(items: seq<string>)
    ensures ParseItems(items).Some? <==> forall i :: 0 <= i < |items| ==> Count(items[i], '=') == 1
  {
    if items != [] {
      var n := |items| - 1;
      ParsesExactly(items[..n]);
      JoinSplit(items[n], '=');
      hide ParseItems;
      ParseLast(items);
      assert forall i :: 0 <= i < n ==> items[..n][i] == items[i];
    }
  }

  lemma {:induction false} ParseLast(items: seq<string>)
    requires items != []
    ensures var before, parts := ParseItems(items[..|items| - 1]), Split(items[|items| - 1], '=');
            && (ParseItems(items).Some? <==> before.Some? && |parts| == 2)
            && (ParseItems(items).Some? ==> ParseItems(items).value == before.value[parts[0] := parts[1]])
  {
  }

  /** Item `i` is "k=v", and no later item has the key `k`. */
  ghost predicate LastOfKey(items: seq<string>, i: nat, k: string, v: string) {
    && i < |items| && items[i] == Item((k, v))
    && forall j, w :: i < j < |items| ==> items[j] != Item((k, w))
  }

  ghost predicate SomeLast(items: seq<string>, k: string, v: string) {
    exists i: nat :: LastOfKey(items, i, k, v)
  }

  /** A key has the value of the last item that names it, and there is such an item. */
  lemma {:induction false} LastItemWins(items: seq<string>, k: string, v: string)
    requires ParseItems(items).Some?
    ensures k in ParseItems(items).value && ParseItems(items).value[k] == v <==> SomeLast(items, k, v)
  {
    if items != [] {
      var n := |items| - 1;
      ParseLast(items);
      hide ParseItems;
      LastItemWins(items[..n], k, v);
      TwoParts(items[n]);
      var parts := Split(items[n], '=');
      hide Split;
      if parts[0] == k {
        assert forall w :: items[n] == Item((k, w)) <==> w == parts[1] by {
          forall w | items[n] == Item((k, w)) ensures w == parts[1] {
            SameItem(k, w, parts[1]);
          }
        }
        LastIsLast(items, k, v);
      } else {
        forall w ensures items[n] != Item((k, w)) {
          if items[n] == Item((k, w)) {
            SameKey(k, w, parts[0], parts[1]);
          }
        }
        EarlierIsLast(items, k, v);
      }
    }
  }

  lemma {:induction false} LastIsLast(items: seq<string>, k: string, v: string)
    requires items != [] && exists w :: items[|items| - 1] == Item((k, w))
    ensures items[|items| - 1] == Item((k, v)) <==> SomeLast(items, k, v)
  {
    var n := |items| - 1;
    var w :| items[n] == Item((k, w));
    if items[n] == Item((k, v)) {
      assert LastOfKey(items, n, k, v);
    }
  }

  lemma {:induction false} EarlierIsLast(items: seq<string>, k: string, v: string)
    requires items != [] && forall w :: items[|items| - 1] != Item((k, w))
    ensures SomeLast(items[..|items| - 1], k, v) <==> SomeLast(items, k, v)
  {
    var n := |items| - 1;
    var before := items[..n];
    forall i: nat ensures LastOfKey(before, i, k, v) <==> LastOfKey(items, i, k, v) {
      if LastOfKey(items, i, k, v) {
        assert before[i] == items[i];
      }
    }
  }

  /** An item in two parts is these with a '=' between them, and they hold none. */
  lemma {:induction false} TwoParts(item: string)
    ensures |Split(item, '=')| == 2 ==>
              && item == Item((Split(item, '=')[0], Split(item, '=')[1]))
              && '=' !in Split(item, '=')[0] && '=' !in Split(item, '=')[1]
  {
    var parts := Split(item, '=');
    JoinSplit(item, '=');
    if |parts| == 2 {
      assert Join(parts, '=') == parts[0] + ['='] + Join(parts[1..], '=') && Join(parts[1..], '=') == parts[1];
      if '=' in parts[0] {
        PiecesAreClean(item, '=', 0, '=');
      }
      if '=' in parts[1] {
        PiecesAreClean(item, '=', 1, '=');
      }
    }
  }

  lemma {:induction false} SameKey(k: string, v: string, key: string, value: string)
    requires Item((k, v)) == Item((key, value)) && '=' !in key && '=' !in value
    ensures k == key
  {
    var item := Item((key, value));
    assert item[|k|] == '=';
    assert forall i :: 0 <= i < |key| ==> item[i] == key[i];
    assert forall i :: |key| < i < |item| ==> item[i] == value[i - |key| - 1];
    assert k == item[..|k|] && key == item[..|key|];
  }

  lemma {:induction false} SameItem(k: string, v: string, w: string)
    requires Item((k, v)) == Item((k, w))
    ensures v == w
  {
    assert Item((k, v))[|k| + 1..] == v && Item((k, w))[|k| + 1..] == w;
  }

  // ---------- Round trip ----------

  predicate Clean(s: string) {
    ',' !in s && '=' !in s
  }

  predicate AllClean(labels: seq<(string, string)>) {
    forall i :: 0 <= i < |labels| ==> Clean(labels[i].0) && Clean(labels[i].1)
  }

  /** The keys of a dict differ. */
  predicate DistinctKeys(labels: seq<(string, string)>) {
    forall i, j :: 0 <= i < j < |labels| ==> labels[i].0 != labels[j].0
  }

  function ToMap(labels: seq<(string, string)>): Labels {
    if labels == [] then map[]
    else
      var last := labels[|labels| - 1];
      ToMap(labels[..|labels| - 1])[last.0 := last.1]
  }

  lemma {:induction false} ItemRoundTrip(pair: (string, string))
    requires Clean(pair.0) && Clean(pair.1)
    ensures Split(Item(pair), '=') == [pair.0, pair.1] && ',' !in Item(pair)
  {
    var pieces := [pair.0, pair.1];
    assert pieces[1..] == [pair.1];
    assert Item(pair) == Join(pieces, '=');
    SplitJoin(pieces, '=');
  }

  lemma {:induction false} ItemsParse(labels: seq<(string, string)>)
    requires AllClean(labels)
    ensures ParseItems(Items(labels)) == Some(ToMap(labels))
  {
    if labels != [] {
      var n := |labels| - 1;
      ItemsParse(labels[..n]);
      ItemRoundTrip(labels[n]);
      assert Items(labels)[..n] == Items(labels[..n]);
    }
  }

  /** Whatever is parsed has clean keys and values. */
  lemma {:induction false} ParsedIsClean(items: seq<string>, k: string)
    requires forall i :: 0 <= i < |items| ==> ',' !in items[i]
    requires ParseItems(items).Some? && k in ParseItems(items).value
    ensures Clean(k) && Clean(ParseItems(items).value[k])
  {
    var n := |items| - 1;
    var parts := Split(items[n], '=');
    if k != parts[0] {
      ParsedIsClean(items[..n], k);
    } else {
      PartIsClean(items[n], 0);
      PartIsClean(items[n], 1);
    }
  }

  lemma {:induction false} PartIsClean(item: string, i: nat)
    requires ',' !in item && i < |Split(item, '=')|
    ensures Clean(Split(item, '=')[i])
  {
    forall c | c in Split(item, '=')[i] ensures c in item && c != '=' {
      PiecesAreClean(item, '=', i, c);
    }
  }

  lemma {:induction false} ToMapHas(labels: seq<(string, string)>, i: nat)
    requires DistinctKeys(labels) && i < |labels|
    ensures labels[i].0 in ToMap(labels) && ToMap(labels)[labels[i].0] == labels[i].1
  {
    if i < |labels| - 1 {
      ToMapHas(labels[..|labels| - 1], i);
    }
  }

  /** The round trip with its exact condition: for every dict, in whatever order it iterates,
      parsing the printed selector gives the dict back if and only if the dict is not empty and no
      key or value contains ',' or '='. */
  lemma {:induction false} SelectorRoundTrip(labels: seq<(string, string)>)
    requires DistinctKeys(labels)
    ensures Parse(Print(labels)) == Some(ToMap(labels)) <==> labels != [] && AllClean(labels)
  {
    if labels == [] {
      assert Split("", '=') == [""];
      assert Split(Print(labels), ',') == [""];
      assert [""][..0] == [];
    } else if AllClean(labels) {
      forall i | 0 <= i < |labels| ensures ',' !in Items(labels)[i] {
        ItemRoundTrip(labels[i]);
      }
      SplitJoin(Items(labels), ',');
      ItemsParse(labels);
    } else if Parse(Print(labels)) == Some(ToMap(labels)) {
      var items := Split(Print(labels), ',');
      forall i | 0 <= i < |items| ensures ',' !in items[i] {
        if ',' in items[i] {
          PiecesAreClean(Print(labels), ',', i, ',');
        }
      }
      forall i | 0 <= i < |labels| ensures Clean(labels[i].0) && Clean(labels[i].1) {
        ToMapHas(labels, i);
        ParsedIsClean(items, labels[i].0);
      }
    }
  }
}
