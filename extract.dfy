/** `extract_img_tags`, over the `<img>` elements an HTML parser has already
    found in a message's formatted body, in document order. */
module Extract {

  /** An `<img>` element, by its attributes. */
  datatype ImgTag = ImgTag(attrs: map<string, string>)

  predicate HasSrc(img: ImgTag) {
    "src" in img.attrs
  }

  /** The `src` of every image that has one, in document order, duplicates kept. */
  function ExtractImgSrcs(imgs: seq<ImgTag>): (srcs: seq<string>)
    ensures |srcs| <= |imgs|
    ensures forall s :: s in srcs <==>
              exists i :: 0 <= i < |imgs| && HasSrc(imgs[i]) && imgs[i].attrs["src"] == s
  {
    if |imgs| == 0 then []
    else
      var rest := ExtractImgSrcs(imgs[1..]);
      assert forall i :: 1 <= i < |imgs| ==> imgs[i] == imgs[1..][i - 1];
      if HasSrc(imgs[0]) then [imgs[0].attrs["src"]] + rest else rest
  }

  /** Extraction works element by element, so it keeps document order. */
  lemma {:induction false} ExtractAppend(a: seq<ImgTag>, b: seq<ImgTag>)
    ensures ExtractImgSrcs(a + b) == ExtractImgSrcs(a) + ExtractImgSrcs(b)
  {
    if |a| > 0 {
      assert (a + b)[1..] == a[1..] + b;
      ExtractAppend(a[1..], b);
    } else {
      assert a + b == b;
    }
  }

  /** When every image has a `src`, there is one reference per image, in order. */
  lemma {:induction false} ExtractAllSources(imgs: seq<ImgTag>)
    requires forall i :: 0 <= i < |imgs| ==> HasSrc(imgs[i])
    ensures |ExtractImgSrcs(imgs)| == |imgs|
    ensures forall i :: 0 <= i < |imgs| ==> ExtractImgSrcs(imgs)[i] == imgs[i].attrs["src"]
  {
    if |imgs| > 0 {
      ExtractAllSources(imgs[1..]);
    }
  }
}
