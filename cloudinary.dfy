/**
 * CloudinaryServiceImpl.delete: the public id is taken from the image URL
 * and handed to the media API's `destroy` call. The upload calls are not
 * modelled; the API is represented by a log of the ids it was asked to destroy.
 */
module Cloudinary {
  import opened Wrappers
  import opened JavaText
  import EmailService

  /** `url.substring(url.lastIndexOf("/") + 1, url.lastIndexOf("."))`. */
  function PublicId(url: string): (r: Result<string, ServiceError>)
  {
    Substring(url, LastIndexOf(url, '/') + 1, LastIndexOf(url, '.'))
  }

  /**
   * The id is the text strictly between the last '/' and the last '.'; the
   * call throws exactly when there is no '.' after the last '/'
   * (no '.' at all, or the last '.' before the last '/').
   */
  lemma PublicIdBetween(url: string)
    ensures PublicId(url).Success? <==> LastIndexOf(url, '.') > LastIndexOf(url, '/')
    ensures PublicId(url).Success? ==>
              PublicId(url).value == url[LastIndexOf(url, '/') + 1..LastIndexOf(url, '.')]
    ensures PublicId(url).Failure? ==> PublicId(url).error == IndexOutOfBounds
  {
  }

  /** Without a '/', the id starts at the beginning of the URL. */
  lemma PublicIdWithoutSlash(url: string)
    requires '/' !in url && '.' in url
    ensures PublicId(url).Success? && PublicId(url).value == url[..LastIndexOf(url, '.')]
  {
    assert LastIndexOf(url, '/') == -1;
    var k :| 0 <= k < |url| && url[k] == '.';
    assert LastIndexOf(url, '.') >= k;
  }

  /** The last occurrence of `c` in `a + [c] + b` is at `|a|` when `b` has none. */
  lemma {:induction false} LastIndexOfSplit(a: string, c: char, b: string)
    requires c !in b
    ensures LastIndexOf(a + [c] + b, c) == |a|
  {
    if b != [] {
      var s := a + [c] + b;
      assert s[..|s| - 1] == a + [c] + b[..|b| - 1];
      assert s[|s| - 1] == b[|b| - 1];
      LastIndexOfSplit(a, c, b[..|b| - 1]);
    }
  }

  /** `dir/name.ext`, with no '/' in `name.ext` and no '.' in `ext`, yields `name`. */
  lemma PublicIdOfFileName(dir: string, name: string, ext: string)
    requires '/' !in name && '/' !in ext && '.' !in ext
    ensures PublicId(dir + "/" + name + "." + ext) == Success(name)
  {
    var url := dir + "/" + name + "." + ext;
    assert url == dir + ['/'] + (name + "." + ext);
    assert '/' !in name + "." + ext;
    LastIndexOfSplit(dir, '/', name + "." + ext);
    assert url == (dir + "/" + name) + ['.'] + ext;
    LastIndexOfSplit(dir + "/" + name, '.', ext);
    assert url[|dir| + 1..|dir| + 1 + |name|] == name;
  }

  /** The default avatar's URL names the asset "ryi6ouf4e0mwcgz1tcxx". */
  lemma DefaultAvatarPublicId()
    ensures PublicId(EmailService.DefaultAvatarUrl) == Success("ryi6ouf4e0mwcgz1tcxx")
  {
    var dir := "https://res.cloudinary.com/dvsutdpx2/image/upload/v1732181213";
    assert EmailService.DefaultAvatarUrl == dir + "/" + "ryi6ouf4e0mwcgz1tcxx" + "." + "png";
    PublicIdOfFileName(dir, "ryi6ouf4e0mwcgz1tcxx", "png");
  }

  /** The media API, seen through the `destroy` calls made on it. */
  class MediaStore {
    var destroyed: seq<string>

    constructor ()
      ensures destroyed == []
    {
      destroyed := [];
    }

    /**
     * `delete(imageUrl)`: `destroy` is called once with the extracted id, or
     * not at all when extraction throws; a failed call (`apiAccepts` false)
     * throws IOException and records nothing.
     */
    method Delete(imageUrl: string, apiAccepts: bool) returns (r: Result<(), ServiceError>)
      modifies this
      ensures r.Success? <==> PublicId(imageUrl).Success? && apiAccepts
      ensures r.Success? ==> destroyed == old(destroyed) + [PublicId(imageUrl).value]
      ensures r.Failure? ==> destroyed == old(destroyed)
      ensures PublicId(imageUrl).Failure? ==> r == Failure(IndexOutOfBounds)
      ensures PublicId(imageUrl).Success? && !apiAccepts ==> r == Failure(IOFailure)
    {
      var id := PublicId(imageUrl);
      if id.Failure? {
        return Failure(id.error);
      }
      if !apiAccepts {
        return Failure(IOFailure);
      }
      destroyed := destroyed + [id.value];
      r := Success(());
    }
  }
}
