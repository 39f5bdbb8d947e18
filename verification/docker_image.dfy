/** Image acquisition for container steps (src/docker/image.rs). The docker daemon is an
    oracle: whether the image is present before and after the pull, and the chunks the
    pull stream delivers. The model records the requests the code sends to the daemon. */
module DockerImage {
  import opened Results
  import opened Text

  /** What to do about an image that a step needs. */
  datatype ImagePullPolicy =
    | Never
    | Pull(always: bool, sha256sum: Option<string>, repo: Option<string>)
    | Build(buildRoot: string, dockerfile: string)

  /** `impl Default for ImagePullPolicy`: pull only when missing, with no checksum and the
      default repository. */
  function DefaultPolicy(): (p: ImagePullPolicy)
    ensures p.Pull? && !p.always && p.sha256sum.None? && p.repo.None?
  {
    Pull(false, None, None)
  }

  /** An image reference split into its name and optional tag. */
  datatype ImageRef = ImageRef(name: string, tag: Option<string>)

  /** The split of `pull_image`: at the first ':' when there is one. */
  function SplitImageRef(image: string): (r: ImageRef)
    ensures r.tag.None? <==> ':' !in image
    ensures r.tag.None? ==> r.name == image
    ensures r.tag.Some? ==> image == r.name + [':'] + r.tag.value && ':' !in r.name
  {
    match SplitOnce(image, ':')
    case None => ImageRef(image, None)
    case Some(parts) => ImageRef(parts.0, Some(parts.1))
  }

  /** The tag that is pulled: the reference's own, or "latest". */
  function PullTag(r: ImageRef): (tag: string)
    ensures r.tag.Some? ==> tag == r.tag.value
    ensures r.tag.None? ==> tag == "latest"
  {
    match r.tag
    case Some(t) => t
    case None => "latest"
  }

  datatype PullOpts = PullOpts(image: string, repo: Option<string>, tag: string)

  /** One item of the daemon's pull stream. */
  datatype PullChunk =
    | Update(stream: string)
    | ChunkError(error: string, detail: string)
    | Digest(aux: string)
    | PullStatus(status: string)

  /** The daemon's side of one acquisition: whether the image is there when first
      inspected, what the pull stream yields, and whether it is there afterwards. */
  datatype PullOracle = PullOracle(
    presentBefore: bool,
    stream: seq<Result<PullChunk, string>>,
    presentAfter: bool)

  datatype ImageRequest = Inspect(name: string) | PullImage(opts: PullOpts)

  datatype ImageError =
    | PullChunkFailed(message: string)
    | PullStreamFailed(message: string)
    | MissingAfterPull(name: string)
    | BuildUnimplemented

  /** The requests sent to the daemon and the final result. */
  datatype Acquisition = Acquisition(requests: seq<ImageRequest>, result: Result<(), ImageError>)

  /** A stream item that ends the pull with an error. */
  predicate AbortsPull(item: Result<PullChunk, string>) {
    item.Err? || item.value.ChunkError?
  }

  function PullItemError(item: Result<PullChunk, string>): ImageError
    requires AbortsPull(item)
  {
    match item
    case Err(e) => PullStreamFailed(e)
    case Ok(chunk) => PullChunkFailed(chunk.error + ": " + chunk.detail)
  }

  /** Drains the pull stream: updates, digests and progress are only logged; the first
      error chunk or stream error ends the pull with that error. */
  function DrainPull(stream: seq<Result<PullChunk, string>>): (r: Result<(), ImageError>)
    ensures r.Ok? <==> forall i | 0 <= i < |stream| :: !AbortsPull(stream[i])
    ensures r.Err? ==> exists i | 0 <= i < |stream| ::
      AbortsPull(stream[i]) && r.error == PullItemError(stream[i])
      && forall j | 0 <= j < i :: !AbortsPull(stream[j])
  {
    if stream == [] then Ok(())
    else if AbortsPull(stream[0]) then Err(PullItemError(stream[0]))
    else
      var rest := DrainPull(stream[1..]);
      assert forall j | 1 <= j < |stream| :: stream[j] == stream[1..][j - 1];
      rest
  }

  /** `pull_image`. The checksum argument is accepted but never used. */
  function PullImageWith(image: string, always: bool, sha256sum: Option<string>,
                         repo: Option<string>, daemon: PullOracle): (a: Acquisition)
    ensures |a.requests| >= 1 && a.requests[0] == Inspect(SplitImageRef(image).name)
    ensures daemon.presentBefore && !always ==> a == Acquisition([Inspect(SplitImageRef(image).name)], Ok(()))
    ensures !(daemon.presentBefore && !always) ==>
      |a.requests| >= 2
      && a.requests[1] == PullImage(PullOpts(SplitImageRef(image).name, repo, PullTag(SplitImageRef(image))))
    ensures a.result.Ok? <==>
      (daemon.presentBefore && !always)
      || (DrainPull(daemon.stream).Ok? && daemon.presentAfter)
  {
    var ref := SplitImageRef(image);
    if daemon.presentBefore && !always then
      Acquisition([Inspect(ref.name)], Ok(()))
    else
      var opts := PullOpts(ref.name, repo, PullTag(ref));
      match DrainPull(daemon.stream)
      case Err(e) => Acquisition([Inspect(ref.name), PullImage(opts)], Err(e))
      case Ok(_) =>
        Acquisition([Inspect(ref.name), PullImage(opts), Inspect(ref.name)],
                    if daemon.presentAfter then Ok(()) else Err(MissingAfterPull(ref.name)))
  }

  /** The checksum of a pull policy has no effect on what is requested or returned. */
  lemma PullIgnoresChecksum(image: string, always: bool, s1: Option<string>, s2: Option<string>,
                            repo: Option<string>, daemon: PullOracle)
    ensures PullImageWith(image, always, s1, repo, daemon) == PullImageWith(image, always, s2, repo, daemon)
  {
  }

  /** `ImagePullPolicy::acquire_image`: nothing for `Never`, a pull for `Pull`, and for
      `Build` the unimplemented builder. */
  function AcquireImage(policy: ImagePullPolicy, image: string, daemon: PullOracle): (a: Acquisition)
    ensures policy.Never? ==> a == Acquisition([], Ok(()))
    ensures policy.Build? ==> a.requests == [] && a.result == Err(BuildUnimplemented)
    ensures policy.Pull? ==> a == PullImageWith(image, policy.always, policy.sha256sum, policy.repo, daemon)
  {
    match policy
    case Never => Acquisition([], Ok(()))
    case Pull(always, sha256sum, repo) => PullImageWith(image, always, sha256sum, repo, daemon)
    case Build(_, _) => Acquisition([], Err(BuildUnimplemented))
  }
}
