/** The session configuration (`Common`) and the shard-dependent fields that
    `analizeVersion` derives from the login redirect URL. */
module Config {
  import opened GoStrings

  /** Path of the CGI endpoints below the shard's domain. */
  const CgiPath: string := "/cgi-bin/mmwebwx-bin"

  /** Long-poll host of the newer backend pool. */
  const SyncSrvWx2: string := "webpush.wx2.qq.com"

  /** Long-poll host of the legacy backend pool. */
  const SyncSrvWx: string := "webpush.wx.qq.com"

  /** Host marker of the newer backend pool. */
  const Wx2Marker: string := "wx2"

  /** The three fields that depend on the shard the account was routed to. */
  datatype ShardConfig = ShardConfig(CgiDomain: string, CgiUrl: string, SyncSrv: string)

  /** The settings that neither the shard derivation nor the login touches. */
  datatype Settings = Settings(
    AppId: string,
    LoginUrl: string,
    Lang: string,
    DeviceID: string,
    UserAgent: string,
    UploadUrl: string,
    MediaCount: int)

  /** `analizeVersion`'s derivation from the redirect URL's scheme and host:
      the CGI domain is the URL's origin, the CGI base URL sits below it, and
      the sync server is the newer pool's host exactly when the host names
      that pool. */
  function Shard(scheme: string, host: string): (r: ShardConfig)
    ensures r.CgiDomain == scheme + "://" + host
    ensures HasPrefix(r.CgiUrl, r.CgiDomain) && r.CgiUrl[|r.CgiDomain|..] == CgiPath
    ensures r.SyncSrv == SyncSrvWx2 <==> Contains(host, Wx2Marker)
    ensures r.SyncSrv == SyncSrvWx2 || r.SyncSrv == SyncSrvWx
  {
    var domain := scheme + "://" + host;
    ShardConfig(domain, domain + CgiPath,
                if Contains(host, Wx2Marker) then SyncSrvWx2 else SyncSrvWx)
  }

  /** Shard fields that belong together: the CGI base URL sits below the CGI
      domain, and the sync server is the newer pool's host exactly when the
      CGI domain names that pool. */
  predicate Consistent(c: ShardConfig) {
    && c.CgiUrl == c.CgiDomain + CgiPath
    && (c.SyncSrv == SyncSrvWx2 || c.SyncSrv == SyncSrvWx)
    && (c.SyncSrv == SyncSrvWx2 <==> Contains(c.CgiDomain, Wx2Marker))
  }

  /** Fields derived from one redirect URL agree with each other: requests to
      the CGI domain and long polls go to the same pool. The scheme of a
      redirect ("https") never names a pool. */
  lemma {:induction false} ShardConsistent(scheme: string, host: string)
    requires !Contains(scheme, Wx2Marker)
    ensures Consistent(Shard(scheme, host))
  {
    DomainNamesPool(scheme, host);
  }

  /** The origin `scheme://host` names the newer pool exactly when its host
      does, provided the scheme does not. */
  lemma {:induction false} DomainNamesPool(scheme: string, host: string)
    requires !Contains(scheme, Wx2Marker)
    ensures Contains(scheme + "://" + host, Wx2Marker) <==> Contains(host, Wx2Marker)
  {
    var domain := scheme + "://" + host;
    var k := |scheme| + 3;
    assert domain[k..] == host;
    ContainsIff(host, Wx2Marker);
    ContainsIff(domain, Wx2Marker);
    if Contains(host, Wx2Marker) {
      var i: nat :| OccursAt(host, Wx2Marker, i);
      OccursShift(domain, Wx2Marker, k, i);
    }
    if Contains(domain, Wx2Marker) {
      var i: nat :| OccursAt(domain, Wx2Marker, i);
      MarkerPlacement(scheme, host, i);
      OccursShift(domain, Wx2Marker, k, i - k);
    }
  }

  /** An occurrence of the marker in `scheme://host` lies inside the host
      when the scheme holds none: it cannot overlap "://". */
  lemma {:induction false} MarkerPlacement(scheme: string, host: string, i: nat)
    requires !Contains(scheme, Wx2Marker)
    requires OccursAt(scheme + "://" + host, Wx2Marker, i)
    ensures i >= |scheme| + 3
  {
    var domain := scheme + "://" + host;
    ContainsIff(scheme, Wx2Marker);
    if i + 3 <= |scheme| {
      assert domain[i..i + 3] == scheme[i..i + 3];
      assert OccursAt(scheme, Wx2Marker, i);
    } else if i < |scheme| + 3 {
      MarkerNotAcrossSeparator(scheme, host, i);
      assert false;
    }
  }

  /** The marker never overlaps the "://" between scheme and host: none of
      its characters is a ':' or a '/'. */
  lemma {:induction false} MarkerNotAcrossSeparator(scheme: string, host: string, i: nat)
    requires |scheme| < i + 3 && i < |scheme| + 3
    ensures !OccursAt(scheme + "://" + host, Wx2Marker, i)
  {
    var domain := scheme + "://" + host;
    if i + 3 <= |domain| {
      var p := if i < |scheme| then |scheme| else i;
      assert domain[p] == ':' || domain[p] == '/';
      assert domain[i..i + 3][p - i] == domain[p];
    }
  }

  /** The session configuration; the Go code shares one instance between the
      session and every request it issues. */
  class Common {
    var AppId: string
    var LoginUrl: string
    var Lang: string
    var DeviceID: string
    var UserAgent: string
    var SyncSrv: string
    var UploadUrl: string
    var MediaCount: int
    var CgiDomain: string
    var CgiUrl: string
    var RedirectUri: string

    /** The process-wide default configuration; `randomDigits` stands for the
        fifteen random digits that complete the device id. */
    constructor Default(randomDigits: string)
      ensures AppId == "wx782c26e4c19acffb"
      ensures LoginUrl == "https://login.weixin.qq.com"
      ensures Lang == "zh_CN"
      ensures DeviceID == "e" + randomDigits
      ensures UserAgent == "Mozilla/5.0 (Macintosh; Intel Mac OS X 10_11_3) AppleWebKit/537.36 (KHTML, like Gecko) Chrome/58.0.3029.110 Safari/537.36"
      ensures SyncSrv == SyncSrvWx2
      ensures UploadUrl == "https://file.wx2.qq.com/cgi-bin/mmwebwx-bin/webwxuploadmedia?f=json"
      ensures MediaCount == 0
      ensures CgiDomain == "" && CgiUrl == "" && RedirectUri == ""
    {
      AppId := "wx782c26e4c19acffb";
      LoginUrl := "https://login.weixin.qq.com";
      Lang := "zh_CN";
      DeviceID := "e" + randomDigits;
      UserAgent := "Mozilla/5.0 (Macintosh; Intel Mac OS X 10_11_3) AppleWebKit/537.36 (KHTML, like Gecko) Chrome/58.0.3029.110 Safari/537.36";
      SyncSrv := SyncSrvWx2;
      UploadUrl := "https://file.wx2.qq.com/cgi-bin/mmwebwx-bin/webwxuploadmedia?f=json";
      MediaCount := 0;
      CgiDomain, CgiUrl, RedirectUri := "", "", "";
    }

    function ShardFields(): ShardConfig
      reads this
    {
      ShardConfig(CgiDomain, CgiUrl, SyncSrv)
    }

    function Fixed(): Settings
      reads this
    {
      Settings(AppId, LoginUrl, Lang, DeviceID, UserAgent, UploadUrl, MediaCount)
    }
  }
}
