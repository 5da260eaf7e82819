/** The list fields `collectFormData` builds: achievements and evidence links
    from the dynamic inputs, and the metadata of the attached images. */
module Collect {
  import opened Text
  import Gallery

  /** Each input trimmed, blank ones dropped, order kept. */
  function Entries(inputs: seq<string>): (r: seq<string>)
    ensures |r| <= |inputs|
    ensures forall k :: 0 <= k < |r| ==> r[k] != [] && IsTrimmed(r[k])
    decreases |inputs|
  {
    if inputs == [] then []
    else
      var t := Trim(inputs[0]);
      (if t == [] then [] else [t]) + Entries(inputs[1..])
  }

  /** A value is collected exactly when it is the non-blank trim of some input. */
  lemma {:induction false} EntriesMembership(inputs: seq<string>, x: string)
    ensures x in Entries(inputs) <==> x != [] && exists j :: 0 <= j < |inputs| && Trim(inputs[j]) == x
    decreases |inputs|
  {
    if inputs != [] {
      var t, rest := Trim(inputs[0]), inputs[1..];
      EntriesMembership(rest, x);
      assert Entries(inputs) == (if t == [] then [] else [t]) + Entries(rest);
      if x != [] && exists j :: 0 <= j < |inputs| && Trim(inputs[j]) == x {
        var j :| 0 <= j < |inputs| && Trim(inputs[j]) == x;
        if j > 0 {
          assert rest[j - 1] == inputs[j];
        }
      }
      if x in Entries(rest) {
        var j :| 0 <= j < |rest| && Trim(rest[j]) == x;
        assert inputs[j + 1] == rest[j];
      }
    }
  }

  /** Entries of a concatenation are the concatenation of the entries: the
      relative order of the kept inputs is the order of the inputs. */
  lemma {:induction false} EntriesAppend(a: seq<string>, b: seq<string>)
    ensures Entries(a + b) == Entries(a) + Entries(b)
    decreases |a|
  {
    if a == [] {
      assert a + b == b;
    } else {
      assert (a + b)[0] == a[0] && (a + b)[1..] == a[1..] + b;
      EntriesAppend(a[1..], b);
    }
  }

  lemma EntriesOfOne(x: string)
    ensures Entries([x]) == if Trim(x) == [] then [] else [Trim(x)]
  {
    assert [x][1..] == [];
  }

  /** One more input adds its trim at the end, unless that is blank. */
  lemma EntriesStep(inputs: seq<string>, n: nat)
    requires n < |inputs|
    ensures Entries(inputs[..n + 1]) ==
              Entries(inputs[..n]) + if Trim(inputs[n]) == [] then [] else [Trim(inputs[n])]
  {
    assert inputs[..n + 1] == inputs[..n] + [inputs[n]];
    EntriesAppend(inputs[..n], [inputs[n]]);
    EntriesOfOne(inputs[n]);
  }

  /** The `forEach` over the inputs that pushes each non-blank trimmed value. */
  method CollectEntries(inputs: seq<string>) returns (entries: seq<string>)
    ensures entries == Entries(inputs)
  {
    entries := [];
    for n := 0 to |inputs|
      invariant entries == Entries(inputs[..n])
    {
      var t := Trim(inputs[n]);
      EntriesStep(inputs, n);
      if t != [] {
        entries := entries + [t];
      }
    }
    assert inputs[..|inputs|] == inputs;
  }

  /** `images.map(img => img.name)` */
  function ImageNames(images: seq<Gallery.Image>): (names: seq<string>)
    ensures |names| == |images|
    ensures forall i :: 0 <= i < |images| ==> names[i] == images[i].name
  {
    seq(|images|, i requires 0 <= i < |images| => images[i].name)
  }

  /** The list fields of the submitted record. */
  datatype Lists = Lists(achievements: seq<string>, evidences: seq<string>, imageCount: nat, imageNames: seq<string>)

  function CollectLists(achievementInputs: seq<string>, evidenceInputs: seq<string>, images: seq<Gallery.Image>): (r: Lists)
    ensures |r.achievements| <= |achievementInputs| && |r.evidences| <= |evidenceInputs|
    ensures forall x :: x in r.achievements + r.evidences ==> x != [] && IsTrimmed(x)
    ensures r.imageCount == |r.imageNames| == |images|
  {
    Lists(Entries(achievementInputs), Entries(evidenceInputs), |images|, ImageNames(images))
  }

  /** Blank inputs contribute nothing, wherever they sit. */
  lemma BlankInputsIgnored(a: seq<string>, blank: string, b: seq<string>)
    requires AllWhitespace(blank)
    ensures Entries(a + [blank] + b) == Entries(a + b)
  {
    assert Entries([blank]) == [] by {
      EntriesOfOne(blank);
    }
    assert Entries(a + [blank] + b) == Entries(a + [blank]) + Entries(b) by {
      EntriesAppend(a + [blank], b);
    }
    assert Entries(a + [blank]) == Entries(a) by {
      EntriesAppend(a, [blank]);
    }
    EntriesAppend(a, b);
  }

  /** Removing an image removes its name from the recorded metadata. */
  lemma RemovedImageLeavesMetadata(s: Gallery.Session, i: int)
    requires 0 <= i < |s.images|
    ensures var names := ImageNames(Gallery.RemoveImage(s, i).images);
            names == ImageNames(s.images)[..i] + ImageNames(s.images)[i + 1..]
  {
  }
}
