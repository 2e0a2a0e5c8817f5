/**
 * Properties of the scraper's discovery functions: the order and bounds of
 * the kept image sources, what saving a payload does to the files, and the
 * guarantees of the whole category-by-category discovery (the cap, the
 * category order, the per-category quota, the shape of every candidate, and
 * that nothing outside the output directory is touched).
 */
module DiscoveryProps {
  import opened Wrappers
  import opened Bytes
  import opened Text
  import opened Base64
  import opened Dates
  import opened Files
  import opened Discovery

  // ---------------------------------------------------------------------
  // The kept sources

  lemma FirstIndexInPrefix<T>(s: seq<T>, k: nat, x: T)
    requires k <= |s| && x in s[..k]
    ensures FirstIndexOf(s, x) == FirstIndexOf(s[..k], x) < k
  {
    var i := FirstIndexOf(s[..k], x);
    assert s[i] == x;
    assert forall j :: 0 <= j < i ==> s[j] == s[..k][j];
  }

  lemma FirstIndexAfterPrefix<T>(s: seq<T>, k: nat, x: T)
    requires k < |s| && x !in s[..k] && s[k] == x
    ensures FirstIndexOf(s, x) == k
  {
    assert forall j :: 0 <= j < k ==> s[j] == s[..k][j];
  }

  /** Each listed source first appears on the page before the next one does. */
  predicate InFirstOrder(sources: seq<Option<string>>, r: seq<string>) {
    forall i, j :: 0 <= i < j < |r| ==> FirstIndexOf(sources, Some(r[i])) < FirstIndexOf(sources, Some(r[j]))
  }

  lemma OrderExtends(sources: seq<Option<string>>, earlier: seq<string>)
    requires sources != []
    requires InFirstOrder(sources[..|sources| - 1], earlier)
    requires forall x :: x in earlier ==> Some(x) in sources[..|sources| - 1]
    ensures InFirstOrder(sources, earlier)
    ensures forall x :: x in earlier ==> FirstIndexOf(sources, Some(x)) < |sources| - 1
  {
    var n := |sources| - 1;
    forall x | x in earlier
      ensures FirstIndexOf(sources, Some(x)) == FirstIndexOf(sources[..n], Some(x)) < n
    {
      FirstIndexInPrefix(sources, n, Some(x));
    }
  }

  lemma OrderAppend(sources: seq<Option<string>>, earlier: seq<string>, src: string)
    requires sources != [] && sources[|sources| - 1] == Some(src)
    requires Some(src) !in sources[..|sources| - 1]
    requires InFirstOrder(sources, earlier)
    requires forall x :: x in earlier ==> FirstIndexOf(sources, Some(x)) < |sources| - 1
    ensures InFirstOrder(sources, earlier + [src])
  {
    FirstIndexAfterPrefix(sources, |sources| - 1, Some(src));
    var r := earlier + [src];
    forall i, j | 0 <= i < j < |r|
      ensures FirstIndexOf(sources, Some(r[i])) < FirstIndexOf(sources, Some(r[j]))
    {
      assert r[i] == earlier[i];
      if j < |earlier| {
        assert r[j] == earlier[j];
      } else {
        assert r[j] == src;
        assert earlier[i] in earlier;
      }
    }
  }

  /**
   * The kept sources are in the order of their first appearance on the page:
   * a source that first appears earlier is listed earlier.
   */
  lemma {:induction false} UniqueDataImagesOrder(sources: seq<Option<string>>)
    ensures InFirstOrder(sources, UniqueDataImages(sources))
  {
    if sources != [] {
      var n := |sources| - 1;
      var earlier := UniqueDataImages(sources[..n]);
      UniqueDataImagesOrder(sources[..n]);
      OrderExtends(sources, earlier);
      var r := UniqueDataImages(sources);
      if r != earlier {
        var src := r[|r| - 1];
        assert r == earlier + [src] && src !in earlier;
        assert sources[n] == Some(src);
        OrderAppend(sources, earlier, src);
      }
    }
  }

  /**
   * A page whose unique sources fit under the limit is returned whole, and
   * one with more gives exactly `maxImages` of them; in every case the
   * result is a prefix of the unique sources, so the page order is kept.
   */
  lemma PageSourcesPrefix(sources: seq<Option<string>>, maxImages: int)
    ensures var r := PageSources(Rendered(sources), maxImages);
            && r == UniqueDataImages(sources)[..|r|]
            && (maxImages >= |UniqueDataImages(sources)| ==> r == UniqueDataImages(sources))
            && (0 <= maxImages < |UniqueDataImages(sources)| ==> |r| == maxImages)
  {
  }

  // ---------------------------------------------------------------------
  // Saving one payload

  /** Only the text after the first comma matters: any comma-free header gives the same outcome. */
  lemma SaveIgnoresHeader(h1: string, h2: string, encoded: string, filename: string,
                          files: map<Path, seq<Byte>>, imageSize: seq<Byte> -> Option<(int, int)>)
    requires ',' !in h1 && ',' !in h2
    ensures SaveOutcome(h1 + "," + encoded, filename, files, imageSize)
         == SaveOutcome(h2 + "," + encoded, filename, files, imageSize)
  {
    SplitOnceAt(h1, ',', encoded);
    SplitOnceAt(h2, ',', encoded);
  }

  /**
   * A well-formed payload carrying the Base64 of `bs` stores exactly `bs` at
   * `OutputDir/filename` when it is small enough and large in pixels, stores
   * nothing when it is too big, and leaves no file at that path when its
   * dimensions are too small.
   */
  lemma SaveEncoded(header: string, bs: seq<Byte>, filename: string,
                    files: map<Path, seq<Byte>>, imageSize: seq<Byte> -> Option<(int, int)>)
    requires ',' !in header
    ensures var r := SaveOutcome(header + "," + Encode(bs), filename, files, imageSize);
            var p := JoinPath(OutputDir, filename);
            && (|bs| > MaxFileSize ==> r == Saved(None, files))
            && (|bs| <= MaxFileSize && imageSize(bs).Some?
                && imageSize(bs).value.0 >= MinWidth && imageSize(bs).value.1 >= MinHeight
                ==> r == Saved(Some(p), files[p := bs]))
            && (|bs| <= MaxFileSize && imageSize(bs).Some?
                && (imageSize(bs).value.0 < MinWidth || imageSize(bs).value.1 < MinHeight)
                ==> r.path.None? && p !in r.files)
            && (|bs| <= MaxFileSize && imageSize(bs).None? ==> r == Saved(None, files[p := bs]))
  {
    SplitOnceAt(header, ',', Encode(bs));
    DecodeEncode(bs);
  }

  /**
   * The body is decoded, and its size checked, before anything is written: a
   * body the decoder rejects, or one over 10 MiB, leaves the files as they
   * were and returns no path.
   */
  lemma SaveDecoded(header: string, encoded: string, filename: string,
                    files: map<Path, seq<Byte>>, imageSize: seq<Byte> -> Option<(int, int)>)
    requires ',' !in header
    ensures var r := SaveOutcome(header + "," + encoded, filename, files, imageSize);
            && (Decode(encoded).None? ==> r == Saved(None, files))
            && (Decode(encoded).Some? && |Decode(encoded).value| > MaxFileSize ==> r == Saved(None, files))
  {
    SplitOnceAt(header, ',', encoded);
  }

  // ---------------------------------------------------------------------
  // Discovery

  /** Paths under the output directory. */
  predicate InOutputDir(q: Path) {
    StartsWith(q, OutputDir + "/")
  }

  /** Every file outside the output directory is present in both or neither, with the same bytes. */
  ghost predicate SameOutside(before: map<Path, seq<Byte>>, after: map<Path, seq<Byte>>) {
    forall q :: !InOutputDir(q) ==> (q in after <==> q in before) && (q in before ==> after[q] == before[q])
  }

  lemma JoinPathInOutputDir(name: string)
    ensures InOutputDir(JoinPath(OutputDir, name))
  {
    assert JoinPath(OutputDir, name)[..|OutputDir + "/"|] == OutputDir + "/";
  }

  lemma SameOutsideTrans(a: map<Path, seq<Byte>>, b: map<Path, seq<Byte>>, c: map<Path, seq<Byte>>)
    requires SameOutside(a, b) && SameOutside(b, c)
    ensures SameOutside(a, c)
  {
  }

  /** Candidate `c` was made by the loop body from `payload` of category `cheeseType`. */
  predicate MadeFrom(c: Candidate, cheeseType: string, payload: string, md5: seq<Byte> -> string, today: Date)
    requires Valid(today)
  {
    && c.id == CandidateFilename(cheeseType, payload, md5)
    && c.cheeseType == cheeseType
    && c.filePath == JoinPath(OutputDir, c.id)
    && c.metadata == AnalyzeImageContent(c.filePath, cheeseType, today)
  }

  /** Candidate `c` was made from one of `payloads`. */
  ghost predicate FromPayloads(c: Candidate, cheeseType: string, payloads: seq<string>, md5: seq<Byte> -> string,
                         today: Date)
    requires Valid(today)
  {
    exists p :: p in payloads && MadeFrom(c, cheeseType, p, md5, today)
  }

  /**
   * One payload adds at most one candidate, made from it, and touches only
   * the output directory. A payload the save rejects adds nothing; a kept
   * one adds exactly one candidate, whose path is the one the save returned;
   * the files afterwards are those the save leaves.
   */
  lemma TryPayloadStep(payload: string, cheeseType: string, env: Env, today: Date, acc: Progress)
    requires Valid(today)
    ensures var saved := SaveOutcome(payload, CandidateFilename(cheeseType, payload, env.md5), acc.files, env.imageSize);
            var r := TryPayload(payload, cheeseType, env, today, acc);
            && (saved.path.None? ==> r == Progress(acc.found, saved.files))
            && (saved.path.Some? ==> |r.found| == |acc.found| + 1 && r.found[|acc.found|].filePath == saved.path.value)
            && r.files == saved.files
    ensures var r := TryPayload(payload, cheeseType, env, today, acc);
            && acc.found <= r.found
            && |r.found| <= |acc.found| + 1
            && (forall i :: |acc.found| <= i < |r.found| ==> MadeFrom(r.found[i], cheeseType, payload, env.md5, today))
            && SameOutside(acc.files, r.files)
  {
    var name := CandidateFilename(cheeseType, payload, env.md5);
    JoinPathInOutputDir(name);
  }

  /**
   * The inner loop keeps what was found, adds at most one candidate per
   * payload and never passes the cap, does nothing once the cap is reached,
   * and touches only the output directory.
   */
  lemma {:induction false} VisitPayloadsShape(payloads: seq<string>, cheeseType: string, maxTotal: int, env: Env,
                                              today: Date, acc: Progress)
    requires Valid(today)
    ensures var r := VisitPayloads(payloads, cheeseType, maxTotal, env, today, acc);
            && acc.found <= r.found
            && |r.found| <= |acc.found| + |payloads|
            && (|acc.found| >= maxTotal ==> r == acc)
            && (|acc.found| < maxTotal ==> |r.found| <= maxTotal)
            && SameOutside(acc.files, r.files)
    decreases |payloads|
  {
    if payloads != [] && |acc.found| < maxTotal {
      var mid := TryPayload(payloads[0], cheeseType, env, today, acc);
      TryPayloadStep(payloads[0], cheeseType, env, today, acc);
      VisitPayloadsShape(payloads[1..], cheeseType, maxTotal, env, today, mid);
      SameOutsideTrans(acc.files, mid.files, VisitPayloads(payloads[1..], cheeseType, maxTotal, env, today, mid).files);
    }
  }

  /** Every candidate the inner loop adds was made from one of its payloads. */
  lemma {:induction false} VisitPayloadsMade(payloads: seq<string>, cheeseType: string, maxTotal: int, env: Env,
                                             today: Date, acc: Progress)
    requires Valid(today)
    ensures var r := VisitPayloads(payloads, cheeseType, maxTotal, env, today, acc);
            forall i :: |acc.found| <= i < |r.found| ==> FromPayloads(r.found[i], cheeseType, payloads, env.md5, today)
    decreases |payloads|
  {
    if payloads != [] && |acc.found| < maxTotal {
      var mid := TryPayload(payloads[0], cheeseType, env, today, acc);
      var r := VisitPayloads(payloads[1..], cheeseType, maxTotal, env, today, mid);
      TryPayloadStep(payloads[0], cheeseType, env, today, acc);
      VisitPayloadsShape(payloads[1..], cheeseType, maxTotal, env, today, mid);
      VisitPayloadsMade(payloads[1..], cheeseType, maxTotal, env, today, mid);
      forall i | |acc.found| <= i < |r.found|
        ensures FromPayloads(r.found[i], cheeseType, payloads, env.md5, today)
      {
        if i < |mid.found| {
          assert r.found[i] == mid.found[i];
          assert MadeFrom(r.found[i], cheeseType, payloads[0], env.md5, today);
        } else {
          assert FromPayloads(r.found[i], cheeseType, payloads[1..], env.md5, today);
          var p :| p in payloads[1..] && MadeFrom(r.found[i], cheeseType, p, env.md5, today);
          assert p in payloads;
        }
      }
    }
  }

  /** The outer loop keeps what was found, never passes the cap and touches only the output directory. */
  lemma {:induction false} VisitTypesShape(types: seq<string>, typeCount: int, maxTotal: int, env: Env, today: Date, acc: Progress)
    requires Valid(today) && |types| <= typeCount
    ensures var r := VisitTypes(types, typeCount, maxTotal, env, today, acc);
            && acc.found <= r.found
            && (|acc.found| >= maxTotal ==> r == acc)
            && (|acc.found| < maxTotal ==> |r.found| <= maxTotal)
            && SameOutside(acc.files, r.files)
    decreases |types|
  {
    if types != [] && |acc.found| < maxTotal {
      var after := VisitPayloads(CategoryPayloads(types[0], PerTypeLimit(maxTotal, typeCount), env), types[0], maxTotal, env, today, acc);
      VisitPayloadsShape(CategoryPayloads(types[0], PerTypeLimit(maxTotal, typeCount), env), types[0], maxTotal, env, today, acc);
      VisitTypesShape(types[1..], typeCount, maxTotal, env, today, after);
      SameOutsideTrans(acc.files, after.files, VisitTypes(types[1..], typeCount, maxTotal, env, today, after).files);
    }
  }

  /**
   * The candidates of `cs` from index `lo` on are each of one of `types` and
   * made from a payload of that type's search.
   */
  ghost predicate FoundFrom(cs: seq<Candidate>, lo: nat, types: seq<string>, maxTotal: int, typeCount: int, env: Env,
                            today: Date)
    requires Valid(today) && typeCount > 0
  {
    forall i :: lo <= i < |cs| ==>
      && cs[i].cheeseType in types
      && FromPayloads(cs[i], cs[i].cheeseType, CategoryPayloads(cs[i].cheeseType, PerTypeLimit(maxTotal, typeCount), env),
                      env.md5, today)
  }

  /** The candidates of the first category followed by those of the later ones. */
  lemma FoundFromStep(types: seq<string>, maxTotal: int, typeCount: int, env: Env, today: Date,
                      accFound: seq<Candidate>, afterFound: seq<Candidate>, found: seq<Candidate>)
    requires Valid(today) && typeCount > 0 && types != []
    requires accFound <= afterFound <= found
    requires forall i :: |accFound| <= i < |afterFound| ==> afterFound[i].cheeseType == types[0]
    requires forall i :: |accFound| <= i < |afterFound| ==>
               FromPayloads(afterFound[i], types[0], CategoryPayloads(types[0], PerTypeLimit(maxTotal, typeCount), env),
                            env.md5, today)
    requires FoundFrom(found, |afterFound|, types[1..], maxTotal, typeCount, env, today)
    ensures FoundFrom(found, |accFound|, types, maxTotal, typeCount, env, today)
  {
    forall i | |accFound| <= i < |found|
      ensures found[i].cheeseType in types
      ensures FromPayloads(found[i], found[i].cheeseType,
                           CategoryPayloads(found[i].cheeseType, PerTypeLimit(maxTotal, typeCount), env), env.md5, today)
    {
      if i < |afterFound| {
        assert found[i] == afterFound[i];
      } else {
        assert found[i].cheeseType in types[1..];
      }
    }
  }

  /** Every candidate the outer loop adds is of a visited category and made from a payload of its search. */
  lemma {:induction false} VisitTypesMade(types: seq<string>, typeCount: int, maxTotal: int, env: Env, today: Date, acc: Progress)
    requires Valid(today) && |types| <= typeCount && typeCount > 0
    ensures FoundFrom(VisitTypes(types, typeCount, maxTotal, env, today, acc).found, |acc.found|, types, maxTotal,
                      typeCount, env, today)
    decreases |types|
  {
    if types != [] && |acc.found| < maxTotal {
      var payloads := CategoryPayloads(types[0], PerTypeLimit(maxTotal, typeCount), env);
      var after := VisitPayloads(payloads, types[0], maxTotal, env, today, acc);
      var r := VisitTypes(types[1..], typeCount, maxTotal, env, today, after);
      VisitPayloadsShape(payloads, types[0], maxTotal, env, today, acc);
      VisitPayloadsType(payloads, types[0], maxTotal, env, today, acc);
      VisitPayloadsMade(payloads, types[0], maxTotal, env, today, acc);
      VisitTypesShape(types[1..], typeCount, maxTotal, env, today, after);
      VisitTypesMade(types[1..], typeCount, maxTotal, env, today, after);
      FoundFromStep(types, maxTotal, typeCount, env, today, acc.found, after.found, r.found);
    } else {
      VisitTypesShape(types, typeCount, maxTotal, env, today, acc);
    }
  }

  /** All candidates added by the inner loop for `cheeseType` are of that type. */
  lemma VisitPayloadsType(payloads: seq<string>, cheeseType: string, maxTotal: int, env: Env, today: Date,
                          acc: Progress)
    requires Valid(today)
    ensures var r := VisitPayloads(payloads, cheeseType, maxTotal, env, today, acc);
            forall i :: |acc.found| <= i < |r.found| ==> r.found[i].cheeseType == cheeseType
  {
    VisitPayloadsMade(payloads, cheeseType, maxTotal, env, today, acc);
  }

  /** In a list without duplicates the head does not recur in the tail. */
  lemma HeadNotInTail(types: seq<string>)
    requires types != [] && NoDuplicates(types)
    ensures types[0] !in types[1..]
    ensures NoDuplicates(types[1..])
  {
    forall m | 0 <= m < |types[1..]| ensures types[1..][m] != types[0] {
      assert types[1..][m] == types[m + 1];
    }
  }

  lemma IndexInTail(types: seq<string>, t: string)
    requires types != [] && NoDuplicates(types) && t in types[1..]
    ensures FirstIndexOf(types, t) == 1 + FirstIndexOf(types[1..], t)
  {
    HeadNotInTail(types);
  }

  /** The candidates are grouped by type, in the order of `types`. */
  predicate GroupedByType(types: seq<string>, cs: seq<Candidate>) {
    forall i, j :: 0 <= i < j < |cs| ==> FirstIndexOf(types, cs[i].cheeseType) <= FirstIndexOf(types, cs[j].cheeseType)
  }

  /** Every candidate the outer loop adds is of one of the categories it visits. */
  lemma {:induction false} VisitTypesTypes(types: seq<string>, typeCount: int, maxTotal: int, env: Env, today: Date, acc: Progress)
    requires Valid(today) && |types| <= typeCount
    ensures var r := VisitTypes(types, typeCount, maxTotal, env, today, acc);
            forall i :: |acc.found| <= i < |r.found| ==> r.found[i].cheeseType in types
    decreases |types|
  {
    if types != [] && |acc.found| < maxTotal {
      var payloads := CategoryPayloads(types[0], PerTypeLimit(maxTotal, typeCount), env);
      var after := VisitPayloads(payloads, types[0], maxTotal, env, today, acc);
      var r := VisitTypes(types[1..], typeCount, maxTotal, env, today, after);
      VisitPayloadsShape(payloads, types[0], maxTotal, env, today, acc);
      VisitPayloadsType(payloads, types[0], maxTotal, env, today, acc);
      VisitTypesShape(types[1..], typeCount, maxTotal, env, today, after);
      VisitTypesTypes(types[1..], typeCount, maxTotal, env, today, after);
      forall i | |acc.found| <= i < |r.found|
        ensures r.found[i].cheeseType in types
      {
        if i < |after.found| {
          assert r.found[i] == after.found[i];
        } else {
          assert r.found[i].cheeseType in types[1..];
        }
      }
    }
  }

  /**
   * Candidates of the first category followed by candidates grouped by the
   * remaining categories are grouped by all of them.
   */
  lemma GroupedConcat(types: seq<string>, a: seq<Candidate>, b: seq<Candidate>)
    requires types != [] && NoDuplicates(types)
    requires forall i :: 0 <= i < |a| ==> a[i].cheeseType == types[0]
    requires forall i :: 0 <= i < |b| ==> b[i].cheeseType in types[1..]
    requires GroupedByType(types[1..], b)
    ensures GroupedByType(types, a + b)
  {
    var cs := a + b;
    forall i, j | 0 <= i < j < |cs|
      ensures FirstIndexOf(types, cs[i].cheeseType) <= FirstIndexOf(types, cs[j].cheeseType)
    {
      if i < |a| {
        assert cs[i] == a[i];
      } else {
        assert cs[i] == b[i - |a|] && cs[j] == b[j - |a|];
        IndexInTail(types, b[i - |a|].cheeseType);
        IndexInTail(types, b[j - |a|].cheeseType);
      }
    }
  }

  /** `GroupedConcat` for the candidates added by one category and by the ones after it. */
  lemma GroupedStep(types: seq<string>, accFound: seq<Candidate>, afterFound: seq<Candidate>, found: seq<Candidate>)
    requires types != [] && NoDuplicates(types)
    requires accFound <= afterFound <= found
    requires forall i :: |accFound| <= i < |afterFound| ==> afterFound[i].cheeseType == types[0]
    requires forall i :: |afterFound| <= i < |found| ==> found[i].cheeseType in types[1..]
    requires GroupedByType(types[1..], found[|afterFound|..])
    ensures GroupedByType(types, found[|accFound|..])
  {
    var a := afterFound[|accFound|..];
    var b := found[|afterFound|..];
    forall i | 0 <= i < |a| ensures a[i].cheeseType == types[0] {
      assert a[i] == afterFound[|accFound| + i];
    }
    forall i | 0 <= i < |b| ensures b[i].cheeseType in types[1..] {
      assert b[i] == found[|afterFound| + i];
    }
    GroupedConcat(types, a, b);
    assert found[|accFound|..] == a + b;
  }

  /**
   * With distinct categories, the candidates the outer loop adds are grouped
   * by category, in the order of the category list.
   */
  lemma {:induction false} VisitTypesOrder(types: seq<string>, typeCount: int, maxTotal: int, env: Env, today: Date, acc: Progress)
    requires Valid(today) && |types| <= typeCount && NoDuplicates(types)
    ensures var r := VisitTypes(types, typeCount, maxTotal, env, today, acc);
            acc.found <= r.found && GroupedByType(types, r.found[|acc.found|..])
    decreases |types|
  {
    if types != [] && |acc.found| < maxTotal {
      var payloads := CategoryPayloads(types[0], PerTypeLimit(maxTotal, typeCount), env);
      var after := VisitPayloads(payloads, types[0], maxTotal, env, today, acc);
      var r := VisitTypes(types[1..], typeCount, maxTotal, env, today, after);
      VisitPayloadsShape(payloads, types[0], maxTotal, env, today, acc);
      VisitPayloadsType(payloads, types[0], maxTotal, env, today, acc);
      VisitTypesTypes(types[1..], typeCount, maxTotal, env, today, after);
      HeadNotInTail(types);
      VisitTypesOrder(types[1..], typeCount, maxTotal, env, today, after);
      GroupedStep(types, acc.found, after.found, r.found);
    } else {
      VisitTypesShape(types, typeCount, maxTotal, env, today, acc);
      assert VisitTypes(types, typeCount, maxTotal, env, today, acc).found[|acc.found|..] == [];
    }
  }

  /** How many candidates are of type `cheeseType`. */
  function Count(cs: seq<Candidate>, cheeseType: string): (n: nat)
    ensures n <= |cs|
    ensures (forall i :: 0 <= i < |cs| ==> cs[i].cheeseType != cheeseType) ==> n == 0
  {
    if cs == [] then 0
    else (if cs[0].cheeseType == cheeseType then 1 else 0) + Count(cs[1..], cheeseType)
  }

  lemma {:induction false} CountAppend(a: seq<Candidate>, b: seq<Candidate>, cheeseType: string)
    ensures Count(a + b, cheeseType) == Count(a, cheeseType) + Count(b, cheeseType)
  {
    if a == [] {
      assert a + b == b;
    } else {
      assert (a + b)[1..] == a[1..] + b;
      CountAppend(a[1..], b, cheeseType);
    }
  }

  lemma CountSplit(a: seq<Candidate>, b: seq<Candidate>, c: seq<Candidate>, cheeseType: string)
    requires a <= b <= c
    ensures Count(c[|a|..], cheeseType) == Count(b[|a|..], cheeseType) + Count(c[|b|..], cheeseType)
  {
    assert c[|a|..] == b[|a|..] + c[|b|..];
    CountAppend(b[|a|..], c[|b|..], cheeseType);
  }

  /** The inner loop for one category adds at most one candidate per payload, all of that category. */
  lemma VisitPayloadsCount(payloads: seq<string>, category: string, maxTotal: int, env: Env, today: Date,
                           acc: Progress, cheeseType: string)
    requires Valid(today)
    ensures var r := VisitPayloads(payloads, category, maxTotal, env, today, acc);
            && acc.found <= r.found
            && Count(r.found[|acc.found|..], cheeseType) <= (if cheeseType == category then |payloads| else 0)
  {
    var r := VisitPayloads(payloads, category, maxTotal, env, today, acc);
    VisitPayloadsShape(payloads, category, maxTotal, env, today, acc);
    VisitPayloadsType(payloads, category, maxTotal, env, today, acc);
    var added := r.found[|acc.found|..];
    if cheeseType != category {
      forall i | 0 <= i < |added| ensures added[i].cheeseType != cheeseType {
        assert added[i] == r.found[|acc.found| + i];
      }
    }
  }

  /**
   * With distinct categories, the outer loop adds no more candidates of a
   * category than that category's search returned, and none of a type that
   * is not in the list.
   */
  lemma {:induction false} VisitTypesQuota(types: seq<string>, typeCount: int, maxTotal: int, env: Env, today: Date, acc: Progress,
                                           cheeseType: string)
    requires Valid(today) && |types| <= typeCount && typeCount > 0 && NoDuplicates(types)
    ensures var r := VisitTypes(types, typeCount, maxTotal, env, today, acc);
            && acc.found <= r.found
            && Count(r.found[|acc.found|..], cheeseType)
               <= (if cheeseType in types then |CategoryPayloads(cheeseType, PerTypeLimit(maxTotal, typeCount), env)| else 0)
    decreases |types|
  {
    VisitTypesShape(types, typeCount, maxTotal, env, today, acc);
    if types != [] && |acc.found| < maxTotal {
      var payloads := CategoryPayloads(types[0], PerTypeLimit(maxTotal, typeCount), env);
      var after := VisitPayloads(payloads, types[0], maxTotal, env, today, acc);
      var r := VisitTypes(types[1..], typeCount, maxTotal, env, today, after);
      VisitPayloadsCount(payloads, types[0], maxTotal, env, today, acc, cheeseType);
      HeadNotInTail(types);
      VisitTypesQuota(types[1..], typeCount, maxTotal, env, today, after, cheeseType);
      CountSplit(acc.found, after.found, r.found, cheeseType);
    } else {
      assert acc.found[|acc.found|..] == [];
    }
  }

  lemma CheeseTypesDistinct()
    ensures NoDuplicates(CheeseTypes)
  {
  }

  /**
   * `find_and_download_candidates(maxTotal)` returns at most `maxTotal`
   * candidates, none and with no file touched when it is not positive, and
   * never changes a file outside the output directory.
   */
  lemma DiscoverBounds(types: seq<string>, maxTotal: int, env: Env, today: Date, files: map<Path, seq<Byte>>)
    requires Valid(today)
    ensures var r := Discover(types, maxTotal, env, today, files);
            && (maxTotal <= 0 ==> r == Progress([], files))
            && |r.found| <= (if maxTotal <= 0 then 0 else maxTotal)
            && SameOutside(files, r.files)
  {
    VisitTypesShape(types, |types|, maxTotal, env, today, Progress([], files));
  }

  /**
   * Each candidate is of one of the listed types and was made from a payload
   * of that type's search: its id is the type's slug and the payload's hash,
   * its path is the id under the output directory, and its metadata is what
   * `analyze_image_content` gives.
   */
  lemma DiscoverMade(types: seq<string>, maxTotal: int, env: Env, today: Date, files: map<Path, seq<Byte>>)
    requires Valid(today) && types != []
    ensures var r := Discover(types, maxTotal, env, today, files);
            forall i :: 0 <= i < |r.found| ==>
              && r.found[i].cheeseType in types
              && FromPayloads(r.found[i], r.found[i].cheeseType,
                              CategoryPayloads(r.found[i].cheeseType, PerTypeLimit(maxTotal, |types|), env),
                              env.md5, today)
  {
    var acc := Progress([], files);
    var r := VisitTypes(types, |types|, maxTotal, env, today, acc);
    assert r == Discover(types, maxTotal, env, today, files);
    VisitTypesMade(types, |types|, maxTotal, env, today, acc);
    forall i | 0 <= i < |r.found|
      ensures r.found[i].cheeseType in types
      ensures FromPayloads(r.found[i], r.found[i].cheeseType,
                           CategoryPayloads(r.found[i].cheeseType, PerTypeLimit(maxTotal, |types|), env), env.md5, today)
    {
      assert FoundFrom(r.found, 0, types, maxTotal, |types|, env, today);
    }
  }

  /** With distinct types, candidates come grouped by type, in the order of the type list. */
  lemma DiscoverOrder(types: seq<string>, maxTotal: int, env: Env, today: Date, files: map<Path, seq<Byte>>)
    requires Valid(today) && NoDuplicates(types)
    ensures GroupedByType(types, Discover(types, maxTotal, env, today, files).found)
  {
    var r := Discover(types, maxTotal, env, today, files);
    VisitTypesOrder(types, |types|, maxTotal, env, today, Progress([], files));
    assert r.found[0..] == r.found;
  }

  /** With distinct types, no type gets more than `maxTotal // len(types) + 1` candidates. */
  lemma DiscoverQuota(types: seq<string>, maxTotal: int, env: Env, today: Date, files: map<Path, seq<Byte>>,
                      cheeseType: string)
    requires Valid(today) && NoDuplicates(types) && types != [] && maxTotal >= 0
    ensures Count(Discover(types, maxTotal, env, today, files).found, cheeseType) <= PerTypeLimit(maxTotal, |types|)
  {
    var r := Discover(types, maxTotal, env, today, files);
    VisitTypesQuota(types, |types|, maxTotal, env, today, Progress([], files), cheeseType);
    assert r.found[0..] == r.found;
  }
}
