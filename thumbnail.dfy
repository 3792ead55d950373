/** The decision logic of `extract_thumbnail`: which embedded QOI preview is used,
    how its comment-prefixed base64 payload is cleaned, and how the PNG fallback's
    base64 text is filtered and padded. Finding the blocks in the G-code text, the
    base64 decoding itself and the PNG writing are parameters. */
module Thumbnail {
  import opened Common
  import Qoi

  /** One match of the QOI thumbnail pattern: the declared size and the payload
      group, a run of lines each written as "; <base64>\n". */
  datatype QoiBlock = QoiBlock(width: nat, height: nat, payload: string)

  function Area(b: QoiBlock): nat {
    b.width * b.height
  }

  /** The block the selection loop settles on: the running best is replaced only by a
      strictly larger area, starting from an area of -1. */
  function FirstLargest(blocks: seq<QoiBlock>): (r: Option<nat>)
    ensures r.None? <==> blocks == []
    ensures r.Some? ==> r.value < |blocks|
    decreases |blocks|
  {
    if blocks == [] then None
    else
      var prev := FirstLargest(blocks[..|blocks| - 1]);
      if prev.None? || Area(blocks[|blocks| - 1]) > Area(blocks[prev.value]) then Some(|blocks| - 1)
      else prev
  }

  /** The selection picks a block of maximal area, and the first one among equals. */
  lemma {:induction false} FirstLargestIsFirstMaximum(blocks: seq<QoiBlock>)
    requires blocks != []
    ensures var i := FirstLargest(blocks).value;
            (forall j :: 0 <= j < |blocks| ==> Area(blocks[j]) <= Area(blocks[i])) &&
            (forall j :: 0 <= j < i ==> Area(blocks[j]) < Area(blocks[i]))
    decreases |blocks|
  {
    var n := |blocks| - 1;
    var init := blocks[..n];
    if init != [] {
      FirstLargestIsFirstMaximum(init);
      assert forall j :: 0 <= j < n ==> init[j] == blocks[j];
    }
  }

  /** The `for match in qoi_matches` loop of `extract_thumbnail`, tracking `max_area`. */
  method SelectLargest(blocks: seq<QoiBlock>) returns (chosen: Option<nat>)
    ensures chosen == FirstLargest(blocks)
    ensures chosen.None? <==> blocks == []
    ensures chosen.Some? ==>
      chosen.value < |blocks| &&
      (forall j :: 0 <= j < |blocks| ==> Area(blocks[j]) <= Area(blocks[chosen.value])) &&
      (forall j :: 0 <= j < chosen.value ==> Area(blocks[j]) < Area(blocks[chosen.value]))
  {
    chosen := None;
    var maxArea: int := -1;
    var k := 0;
    while k < |blocks|
      invariant 0 <= k <= |blocks|
      invariant chosen == FirstLargest(blocks[..k])
      invariant chosen.None? ==> maxArea == -1
      invariant chosen.Some? ==> chosen.value < k && maxArea == Area(blocks[chosen.value])
    {
      assert blocks[..k + 1][..k] == blocks[..k];
      var area := blocks[k].width * blocks[k].height;
      if area > maxArea {
        maxArea := area;
        chosen := Some(k);
      }
      k := k + 1;
    }
    assert blocks[..k] == blocks;
    if chosen.Some? {
      FirstLargestIsFirstMaximum(blocks);
    }
  }

  // ---------------------------------------------------------------------------
  // Cleaning the QOI payload: `.replace('; ', '').replace('\n', '')`.
  // ---------------------------------------------------------------------------

  /** Python's `s.replace(pat, '')`: occurrences are removed left to right without
      overlapping. */
  function RemoveAll(s: string, pat: string): (r: string)
    requires |pat| > 0
    ensures |r| <= |s|
    decreases |s|
  {
    if StartsWith(s, pat) then RemoveAll(s[|pat|..], pat)
    else if s == [] then []
    else [s[0]] + RemoveAll(s[1..], pat)
  }

  /** Python's `s.replace(c, '')` for one character. */
  function RemoveChar(s: string, c: char): (r: string)
    ensures c !in r
    ensures forall x :: x in r ==> x in s
    decreases |s|
  {
    if s == [] then [] else (if s[0] == c then [] else [s[0]]) + RemoveChar(s[1..], c)
  }

  function CleanPayload(payload: string): (r: string)
    ensures '\n' !in r
  {
    RemoveChar(RemoveAll(payload, "; "), '\n')
  }

  /** The characters of the standard base64 alphabet of RFC 4648, section 4, with the
      pad character. */
  predicate IsBase64Char(c: char) {
    ('A' <= c <= 'Z') || ('a' <= c <= 'z') || ('0' <= c <= '9') || c == '+' || c == '/' || c == '='
  }

  predicate IsBase64Line(s: string) {
    forall i :: 0 <= i < |s| ==> IsBase64Char(s[i])
  }

  /** The payload text the pattern captures for the given base64 lines. */
  function PayloadOf(lines: seq<string>): string {
    if lines == [] then [] else "; " + lines[0] + "\n" + PayloadOf(lines[1..])
  }

  function Concat(lines: seq<string>): string {
    if lines == [] then [] else lines[0] + Concat(lines[1..])
  }

  /** Text without ';' passes through the removal of "; " untouched. */
  lemma {:induction false} RemoveAllSkipsPlainText(s: string, t: string)
    requires ';' !in s
    ensures RemoveAll(s + t, "; ") == s + RemoveAll(t, "; ")
    decreases |s|
  {
    if s == [] {
      assert s + t == t;
    } else {
      assert (s + t)[0] == s[0] != ';';
      assert !StartsWith(s + t, "; ") by {
        if |s + t| >= 2 {
          assert (s + t)[..2][0] == s[0];
        }
      }
      assert (s + t)[1..] == s[1..] + t;
      RemoveAllSkipsPlainText(s[1..], t);
    }
  }

  lemma {:induction false} RemoveCharAppend(s: string, t: string, c: char)
    ensures RemoveChar(s + t, c) == RemoveChar(s, c) + RemoveChar(t, c)
    decreases |s|
  {
    if s == [] {
      assert s + t == t;
    } else {
      assert (s + t)[1..] == s[1..] + t;
      RemoveCharAppend(s[1..], t, c);
    }
  }

  lemma {:induction false} RemoveCharAbsent(s: string, c: char)
    requires c !in s
    ensures RemoveChar(s, c) == s
    decreases |s|
  {
    if s != [] {
      RemoveCharAbsent(s[1..], c);
      assert s == [s[0]] + s[1..];
    }
  }

  /** Cleaning a well-formed payload leaves exactly the base64 lines, concatenated. */
  lemma {:induction false} CleanPayloadOfLines(lines: seq<string>)
    requires forall i :: 0 <= i < |lines| ==> IsBase64Line(lines[i])
    ensures CleanPayload(PayloadOf(lines)) == Concat(lines)
    decreases |lines|
  {
    if lines != [] {
      var l := lines[0];
      var rest := PayloadOf(lines[1..]);
      assert ';' !in l && '\n' !in l by {
        forall i | 0 <= i < |l| ensures l[i] != ';' && l[i] != '\n' {
          assert IsBase64Char(l[i]);
        }
      }
      var line := l + "\n";
      var removed := RemoveAll(rest, "; ");
      assert PayloadOf(lines) == "; " + line + rest;
      RemovePrefixedLine(line, rest);
      assert RemoveAll(PayloadOf(lines), "; ") == line + removed;
      RemoveCharAppend(line, removed, '\n');
      RemoveCharAppend(l, "\n", '\n');
      RemoveCharAbsent(l, '\n');
      assert RemoveChar(line, '\n') == l;
      CleanPayloadOfLines(lines[1..]);
    }
  }

  lemma RemovePrefixedLine(line: string, rest: string)
    requires ';' !in line
    ensures RemoveAll("; " + line + rest, "; ") == line + RemoveAll(rest, "; ")
  {
    var s := "; " + line + rest;
    assert StartsWith(s, "; ");
    assert s[2..] == line + rest;
    RemoveAllSkipsPlainText(line, rest);
  }

  // ---------------------------------------------------------------------------
  // Cleaning the PNG fallback's base64 text (RFC 4648, section 4 padding).
  // ---------------------------------------------------------------------------

  /** `B64_RE.sub('', block)`: every character outside the base64 alphabet is dropped. */
  function KeepBase64(s: string): (r: string)
    ensures IsBase64Line(r) && |r| <= |s|
    decreases |s|
  {
    if s == [] then [] else (if IsBase64Char(s[0]) then [s[0]] else []) + KeepBase64(s[1..])
  }

  /** One character is kept exactly when it is in the alphabet. */
  lemma KeepBase64Single(c: char)
    ensures KeepBase64([c]) == (if IsBase64Char(c) then [c] else [])
  {
    assert [c][1..] == [];
  }

  /** The filter works character by character, left to right: together with
      KeepBase64Single this fixes its value on every text, the alphabet characters
      in their order. */
  lemma {:induction false} KeepBase64Append(s: string, t: string)
    ensures KeepBase64(s + t) == KeepBase64(s) + KeepBase64(t)
    decreases |s|
  {
    if s == [] {
      assert s + t == t;
    } else {
      var h := if IsBase64Char(s[0]) then [s[0]] else [];
      assert (s + t)[0] == s[0];
      assert (s + t)[1..] == s[1..] + t;
      assert KeepBase64(s + t) == h + KeepBase64(s[1..] + t);
      KeepBase64Append(s[1..], t);
      assert KeepBase64(s) + KeepBase64(t) == h + (KeepBase64(s[1..]) + KeepBase64(t));
    }
  }

  function Pad(n: nat): (r: string)
    ensures |r| == n && forall i :: 0 <= i < n ==> r[i] == '='
  {
    seq(n, _ => '=')
  }

  /** The filtered text, followed by as many '=' as make its length a multiple of four. */
  function CleanBase64(block: string): (r: string)
    ensures |r| % 4 == 0 && IsBase64Line(r) && |KeepBase64(block)| <= |r|
    ensures r[..|KeepBase64(block)|] == KeepBase64(block)
    ensures |r| - |KeepBase64(block)| < 4
    ensures forall i :: |KeepBase64(block)| <= i < |r| ==> r[i] == '='
  {
    var clean := KeepBase64(block);
    var missing := |clean| % 4;
    if missing != 0 then clean + Pad(4 - missing) else clean
  }

  lemma {:induction false} KeepBase64OfClean(s: string)
    requires IsBase64Line(s)
    ensures KeepBase64(s) == s
    decreases |s|
  {
    if s != [] {
      assert IsBase64Char(s[0]);
      KeepBase64OfClean(s[1..]);
      assert s == [s[0]] + s[1..];
    }
  }

  /** Text that is already base64 of a length divisible by four is left as it is, so
      cleaning twice is the same as cleaning once. */
  lemma CleanBase64OfClean(s: string)
    requires IsBase64Line(s) && |s| % 4 == 0
    ensures CleanBase64(s) == s
  {
    KeepBase64OfClean(s);
  }

  lemma CleanBase64Idempotent(block: string)
    ensures CleanBase64(CleanBase64(block)) == CleanBase64(block)
  {
    CleanBase64OfClean(CleanBase64(block));
  }

  // ---------------------------------------------------------------------------
  // The whole decision.
  // ---------------------------------------------------------------------------

  /** The preview URL that is returned for a written thumbnail. */
  function PreviewUrl(jobid: string): string {
    "/gcode_previews/" + jobid + ".png"
  }

  /** The outcome of `extract_thumbnail`. `blocks` are the QOI matches in order of
      appearance; `pngBlock` is the PNG comment block with its begin and end lines
      already cut off (None when there is none); `lenient` and `strict` stand for
      `base64.b64decode` without and with `validate=True`; `savesImage` says whether
      the decoded QOI image converts and saves as PNG, `writesFile` whether the output
      file can be written. Any failure yields None. */
  function ThumbnailOutcome(blocks: seq<QoiBlock>, pngBlock: Option<string>, jobid: string,
                            lenient: string -> Option<seq<byte>>, strict: string -> Option<seq<byte>>,
                            savesImage: Qoi.Image -> bool, writesFile: bool): (r: Option<string>)
    ensures r.None? || r == Some(PreviewUrl(jobid))
  {
    var chosen := FirstLargest(blocks);
    if chosen.Some? && blocks[chosen.value].payload != "" then
      match lenient(CleanPayload(blocks[chosen.value].payload))
      case None => None
      case Some(bytes) =>
        match Qoi.Decode(bytes)
        case Err(_) => None
        case Ok(img) => if savesImage(img) then Some(PreviewUrl(jobid)) else None
    else
      match pngBlock
      case None => None
      case Some(block) =>
        match strict(CleanBase64(block))
        case None => None
        case Some(_) => if writesFile then Some(PreviewUrl(jobid)) else None
  }

  /** `extract_thumbnail` from its matches on: select, clean, decode, write. */
  method ExtractThumbnail(blocks: seq<QoiBlock>, pngBlock: Option<string>, jobid: string,
                          lenient: string -> Option<seq<byte>>, strict: string -> Option<seq<byte>>,
                          savesImage: Qoi.Image -> bool, writesFile: bool)
    returns (url: Option<string>)
    ensures url == ThumbnailOutcome(blocks, pngBlock, jobid, lenient, strict, savesImage, writesFile)
  {
    var chosen := SelectLargest(blocks);
    if chosen.Some? && blocks[chosen.value].payload != "" {
      var base64Clean := CleanPayload(blocks[chosen.value].payload);
      var qoiData := lenient(base64Clean);
      if qoiData.None? {
        return None;
      }
      var img := Qoi.DecodeQoi(qoiData.value);
      if img.Err? || !savesImage(img.value) {
        return None;
      }
      return Some(PreviewUrl(jobid));
    }
    if pngBlock.None? {
      return None;
    }
    var decoded := strict(CleanBase64(pngBlock.value));
    if decoded.None? || !writesFile {
      return None;
    }
    return Some(PreviewUrl(jobid));
  }

  /** When a QOI preview with a payload exists, the PNG fallback is never consulted:
      a failure on the QOI path is final. */
  lemma QoiPathIsFinal(blocks: seq<QoiBlock>, png1: Option<string>, png2: Option<string>, jobid: string,
                       lenient: string -> Option<seq<byte>>, strict: string -> Option<seq<byte>>,
                       savesImage: Qoi.Image -> bool, writesFile: bool)
    requires blocks != [] && blocks[FirstLargest(blocks).value].payload != ""
    ensures ThumbnailOutcome(blocks, png1, jobid, lenient, strict, savesImage, writesFile)
         == ThumbnailOutcome(blocks, png2, jobid, lenient, strict, savesImage, writesFile)
  {
  }

  /** Without QOI previews the outcome is decided by the PNG block alone, and with
      neither there is no thumbnail. */
  lemma NoQoiFallsBackToPng(pngBlock: Option<string>, jobid: string,
                            lenient: string -> Option<seq<byte>>, strict: string -> Option<seq<byte>>,
                            savesImage: Qoi.Image -> bool, writesFile: bool)
    ensures ThumbnailOutcome([], pngBlock, jobid, lenient, strict, savesImage, writesFile)
         == (if pngBlock.Some? && strict(CleanBase64(pngBlock.value)).Some? && writesFile
             then Some(PreviewUrl(jobid)) else None)
  {
  }

  /** With QOI previews, the one used is the first of the largest area; when its payload
      is not empty, a thumbnail is written exactly when that payload decodes from base64,
      the bytes decode as a QOI image and the image saves. */
  lemma LargestQoiDecides(blocks: seq<QoiBlock>, i: nat, pngBlock: Option<string>, jobid: string,
                          lenient: string -> Option<seq<byte>>, strict: string -> Option<seq<byte>>,
                          savesImage: Qoi.Image -> bool, writesFile: bool)
    requires i < |blocks| && blocks[i].payload != ""
    requires forall j :: 0 <= j < |blocks| ==> Area(blocks[j]) <= Area(blocks[i])
    requires forall j :: 0 <= j < i ==> Area(blocks[j]) < Area(blocks[i])
    ensures var bytes := lenient(CleanPayload(blocks[i].payload));
            ThumbnailOutcome(blocks, pngBlock, jobid, lenient, strict, savesImage, writesFile) ==
              if bytes.Some? && Qoi.Decode(bytes.value).Ok? && savesImage(Qoi.Decode(bytes.value).value)
              then Some(PreviewUrl(jobid)) else None
  {
    FirstLargestIsFirstMaximum(blocks);
    var f := FirstLargest(blocks).value;
    assert Area(blocks[f]) == Area(blocks[i]);
    assert f == i;
  }

  /** Of two previews of equal size the first is used. */
  lemma TieGoesToFirst()
    ensures FirstLargest([QoiBlock(16, 16, "; AAAA\n"), QoiBlock(16, 16, "; BBBB\n")]) == Some(0)
  {
    var bs := [QoiBlock(16, 16, "; AAAA\n"), QoiBlock(16, 16, "; BBBB\n")];
    assert bs[..1][..0] == [];
  }
}
