/** Classifier predictions and the insertion-ordered dictionary that maps an
    image URL to its prediction (a Python `dict` keyed by `str(mxc_url)`). */
module Results {
  import opened Wrappers

  /** What the classifier says about one file: `{"Label": category, "Score": score}`. */
  datatype Prediction = Prediction(category: string, score: real)

  /** One key/value pair of the result dictionary. */
  datatype Entry = Entry(url: string, prediction: Prediction)

  /** The label the bot acts on. */
  const NsfwLabel: string := "NSFW"

  /** The dictionary's keys in insertion order. */
  function Keys(d: seq<Entry>): (ks: seq<string>)
    ensures |ks| == |d|
    ensures forall i :: 0 <= i < |d| ==> ks[i] == d[i].url
  {
    seq(|d|, i requires 0 <= i < |d| => d[i].url)
  }

  /** `d.get(url)`: the value stored under `url`, if any. */
  function Get(d: seq<Entry>, url: string): (r: Option<Prediction>)
    ensures r.Some? <==> url in Keys(d)
  {
    if |d| == 0 then None
    else if d[0].url == url then Some(d[0].prediction)
    else
      assert Keys(d) == [d[0].url] + Keys(d[1..]);
      Get(d[1..], url)
  }

  /** `d[url] = p`: a key already present keeps its position and takes the new
      value; a new key goes at the end (PutKeys, PutGet). */
  function Put(d: seq<Entry>, url: string, p: Prediction): seq<Entry>
  {
    if |d| == 0 then [Entry(url, p)]
    else if d[0].url == url then [Entry(url, p)] + d[1..]
    else [d[0]] + Put(d[1..], url, p)
  }

  /** Assigning keeps the key order and appends a key that was not there. */
  lemma {:induction false} PutKeys(d: seq<Entry>, url: string, p: Prediction)
    ensures Keys(Put(d, url, p)) == if url in Keys(d) then Keys(d) else Keys(d) + [url]
  {
    if |d| > 0 {
      var e, tail := d[0], d[1..];
      assert d == [e] + tail;
      KeysCons(e, tail);
      if e.url == url {
        KeysCons(Entry(url, p), tail);
      } else {
        PutKeys(tail, url, p);
        KeysCons(e, Put(tail, url, p));
      }
    }
  }

  /** After `d[url] = p`, looking up `url` gives `p` and every other key is unchanged. */
  lemma {:induction false} PutGet(d: seq<Entry>, url: string, p: Prediction, k: string)
    ensures Get(Put(d, url, p), k) == if k == url then Some(p) else Get(d, k)
  {
    if |d| > 0 {
      var e, tail := d[0], d[1..];
      assert d == [e] + tail;
      GetCons(e, tail);
      if e.url == url {
        GetCons(Entry(url, p), tail);
      } else {
        PutGet(tail, url, p, k);
        GetCons(e, Put(tail, url, p));
      }
    } else {
      GetCons(Entry(url, p), []);
    }
  }

  lemma KeysCons(e: Entry, d: seq<Entry>)
    ensures Keys([e] + d) == [e.url] + Keys(d)
  {
  }

  lemma GetCons(e: Entry, d: seq<Entry>)
    ensures forall k :: Get([e] + d, k) == if e.url == k then Some(e.prediction) else Get(d, k)
  {
    assert ([e] + d)[1..] == d;
  }

  /** Some prediction carries the NSFW label. */
  predicate HasNsfw(d: seq<Entry>) {
    exists i :: 0 <= i < |d| && d[i].prediction.category == NsfwLabel
  }

  /** The predictions among the dictionary's values that carry the NSFW
      label, in the dictionary's order. */
  function NsfwResults(d: seq<Entry>): (r: seq<Prediction>)
    ensures |r| <= |d|
    ensures forall i :: 0 <= i < |r| ==> r[i].category == NsfwLabel
    ensures forall i :: 0 <= i < |r| ==> exists j :: 0 <= j < |d| && d[j].prediction == r[i]
    ensures forall i :: 0 <= i < |d| && d[i].prediction.category == NsfwLabel ==> d[i].prediction in r
    ensures |r| == 0 <==> !HasNsfw(d)
  {
    if |d| == 0 then []
    else
      var rest := NsfwResults(d[1..]);
      assert forall i :: 1 <= i < |d| ==> d[i] == d[1..][i - 1];
      if d[0].prediction.category == NsfwLabel then [d[0].prediction] + rest else rest
  }

  /** The filter works value by value, so it keeps the dictionary's order. */
  lemma {:induction false} NsfwResultsAppend(a: seq<Entry>, b: seq<Entry>)
    ensures NsfwResults(a + b) == NsfwResults(a) + NsfwResults(b)
  {
    if |a| > 0 {
      assert (a + b)[1..] == a[1..] + b;
      NsfwResultsAppend(a[1..], b);
    } else {
      assert a + b == b;
    }
  }

  /** One value is kept exactly when it carries the NSFW label. */
  lemma NsfwResultsSingle(e: Entry)
    ensures NsfwResults([e]) == if e.prediction.category == NsfwLabel then [e.prediction] else []
  {
  }
}
