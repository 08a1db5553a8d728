/**
 * Storage configuration constants and the builder of public file URLs
 * (`getStorageUrl`).
 */
module StorageConfig {

  // Each URL is written as scheme + rest, which lets the verifier see its first characters.
  const SUPABASE_URL: string := "https://" + "hseqfpfamgdqocueewco.supabase.co"
  const SUPABASE_STORAGE_URL: string := "https://" + "hseqfpfamgdqocueewco.supabase.co/storage/v1/object/public"
  const RESOURCES_BUCKET: string := "study-resources"
  const IS_BUCKET_PUBLIC: bool := true

  /** `path.startsWith('http')`. */
  predicate IsAbsolute(path: string) {
    "http" <= path
  }

  /** The path with one leading '/' removed, if it has one. */
  function CleanPath(path: string): (clean: string)
    ensures path == clean || path == "/" + clean
    ensures path == "/" + clean <==> |path| > 0 && path[0] == '/'
  {
    if |path| > 0 && path[0] == '/' then path[1..] else path
  }

  /** The folder prefix of every file URL in `bucket`. */
  function BucketBase(bucket: string): string {
    SUPABASE_STORAGE_URL + "/" + bucket + "/"
  }

  /**
   * `getStorageUrl(path, bucket = RESOURCES_BUCKET)`: an absolute path is
   * returned as it is; any other path is placed under the bucket's public
   * folder. The result is always absolute.
   */
  function GetStorageUrl(path: string, bucket: string := RESOURCES_BUCKET): (url: string)
    ensures IsAbsolute(path) ==> url == path
    ensures !IsAbsolute(path) ==> BucketBase(bucket) <= url && url[|BucketBase(bucket)|..] == CleanPath(path)
    ensures SUPABASE_STORAGE_URL <= url || url == path
    ensures IsAbsolute(url)
  {
    if IsAbsolute(path) then path
    else
      var url := BucketBase(bucket) + CleanPath(path);
      assert url == "https://" + ("hseqfpfamgdqocueewco.supabase.co/storage/v1/object/public" + "/" + bucket + "/" + CleanPath(path));
      url
  }

  /** A URL the builder produced is absolute, so building again returns it unchanged. */
  lemma GetStorageUrlIdempotent(path: string, bucket: string, bucket2: string)
    ensures GetStorageUrl(GetStorageUrl(path, bucket), bucket2) == GetStorageUrl(path, bucket)
  {
  }

  /** Only one leading '/' is removed: "//a" is stored as "/a". */
  lemma OneSlashRemoved(rest: string)
    ensures GetStorageUrl("/" + rest) == BucketBase(RESOURCES_BUCKET) + rest
    ensures GetStorageUrl("//" + rest) == BucketBase(RESOURCES_BUCKET) + "/" + rest
  {
    assert ("/" + rest)[0] == '/' && ("//" + rest)[0] == '/';
    assert ("//" + rest)[1..] == "/" + rest;
    assert ("/" + rest)[1..] == rest;
  }
}
