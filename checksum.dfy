/**
 * `check_with_algorithm_sum` and the `check_sha1`/`check_md5`/`check_sha256` shorthands.
 * The digest of a file is an uninterpreted function of its path and the algorithm name,
 * answering the hexadecimal text the digest routine produces.
 */
module Checksum {
  import opened Wrappers
  import Strings

  /** `_generic_algorithm_sum(file_path, algorithm_name)` */
  type Digest = (string, string) -> string

  /** The `ConanException` raised on a mismatch, with the parts its message is built from. */
  datatype Error = SignatureFailed(algorithm: string, file: string, computed: string)

  /**
   * The comparison is plain string equality: no case folding and no trimming. A mismatch names
   * the algorithm, the file's base name and the computed signature.
   */
  function CheckWithAlgorithmSum(digest: Digest, algorithm: string, path: string, signature: string): (o: Outcome<Error>)
    ensures o.Pass? <==> digest(path, algorithm) == signature
    ensures o.Fail? ==> o.error.algorithm == algorithm && o.error.computed == digest(path, algorithm)
    ensures o.Fail? ==> o.error.file == Strings.Basename(path)
    ensures o.Fail? ==> Strings.EndsWith(path, o.error.file) && '/' !in o.error.file
  {
    var computed := digest(path, algorithm);
    if computed != signature then Fail(SignatureFailed(algorithm, Strings.Basename(path), computed)) else Pass
  }

  function CheckSha1(digest: Digest, path: string, signature: string): (o: Outcome<Error>)
    ensures o.Pass? <==> digest(path, "sha1") == signature
  {
    CheckWithAlgorithmSum(digest, "sha1", path, signature)
  }

  function CheckMd5(digest: Digest, path: string, signature: string): (o: Outcome<Error>)
    ensures o.Pass? <==> digest(path, "md5") == signature
  {
    CheckWithAlgorithmSum(digest, "md5", path, signature)
  }

  function CheckSha256(digest: Digest, path: string, signature: string): (o: Outcome<Error>)
    ensures o.Pass? <==> digest(path, "sha256") == signature
  {
    CheckWithAlgorithmSum(digest, "sha256", path, signature)
  }

  /**
   * The comparison is case-sensitive: when the computed digest holds a lower-case hex letter,
   * its upper-case spelling is rejected, and the error reports the computed spelling.
   */
  lemma UpperCaseSignatureRejected(digest: Digest, algorithm: string, path: string, i: nat)
    requires i < |digest(path, algorithm)| && 'a' <= digest(path, algorithm)[i] <= 'f'
    ensures var o := CheckWithAlgorithmSum(digest, algorithm, path, Strings.Upper(digest(path, algorithm)));
            o.Fail? && o.error.computed == digest(path, algorithm)
  {
    var computed := digest(path, algorithm);
    assert Strings.Upper(computed)[i] != computed[i];
  }

  /** The error names the file by its base name: the directories never appear in it. */
  lemma ErrorNamesBaseName(digest: Digest, algorithm: string, dir: string, name: string, signature: string)
    requires '/' !in name && digest(dir + "/" + name, algorithm) != signature
    ensures CheckWithAlgorithmSum(digest, algorithm, dir + "/" + name, signature).error.file == name
  {
    BasenameOfJoin(dir, name);
  }

  lemma {:induction false} BasenameOfJoin(dir: string, name: string)
    requires '/' !in name
    ensures Strings.Basename(dir + "/" + name) == name
    decreases |name|
  {
    var p := dir + "/" + name;
    if name == [] {
      assert p[|p| - 1] == '/';
    } else {
      var init := name[..|name| - 1];
      assert p[..|p| - 1] == dir + "/" + init;
      assert p[|p| - 1] == name[|name| - 1];
      BasenameOfJoin(dir, init);
      assert init + [name[|name| - 1]] == name;
    }
  }
}
