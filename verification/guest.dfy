/** Guest images (src/tricks/guest.rs): the kernel and root filesystem images a guest is
    built from, the expansion of an image matrix into every kernel/rootfs pairing, and the
    acquisition of a guest's kernel image. */
module Guests {
  import opened Results
  import opened DockerImage

  /** An OCI image and the policy for acquiring it. */
  datatype ImageSpec = ImageSpec(image: string, imagePolicy: ImagePullPolicy)

  /** An image spec whose policy was left out: the default policy. */
  function DefaultImageSpec(image: string): (s: ImageSpec)
    ensures s.image == image && s.imagePolicy == DefaultPolicy()
  {
    ImageSpec(image, DefaultPolicy())
  }

  /** A guest: an optional kernel image and a root filesystem image. */
  datatype Image = Image(kernel: Option<ImageSpec>, rootfs: ImageSpec)

  /** Kernel images and root filesystem images to be combined in every way. */
  datatype ImageMatrix = ImageMatrix(kernel: seq<ImageSpec>, rootfs: seq<ImageSpec>)

  /** Where the guests come from. */
  datatype GuestSource =
    | Single(image: Image)
    | List(images: seq<Image>)
    | Matrix(matrix: ImageMatrix)

  /** One kernel with each root filesystem, in order. */
  function Row(kernel: ImageSpec, rootfs: seq<ImageSpec>): (images: seq<Image>)
    ensures |images| == |rootfs|
    ensures forall j | 0 <= j < |rootfs| :: images[j] == Image(Some(kernel), rootfs[j])
  {
    seq(|rootfs|, j requires 0 <= j < |rootfs| => Image(Some(kernel), rootfs[j]))
  }

  /** The kernel-major cartesian product of the kernels and the root filesystems. */
  function Product(kernels: seq<ImageSpec>, rootfs: seq<ImageSpec>): (images: seq<Image>)
    ensures |images| == |kernels| * |rootfs|
    decreases |kernels|
  {
    if kernels == [] then [] else Row(kernels[0], rootfs) + Product(kernels[1..], rootfs)
  }

  lemma MulSucc(i: nat, r: nat)
    ensures (i + 1) * r == i * r + r
  {
  }

  /** Pair `(i, j)` of the product sits at index `i * |rootfs| + j`. */
  lemma {:induction false} ProductAt(kernels: seq<ImageSpec>, rootfs: seq<ImageSpec>, i: nat, j: nat)
    requires i < |kernels| && j < |rootfs|
    ensures i * |rootfs| + j < |Product(kernels, rootfs)|
    ensures Product(kernels, rootfs)[i * |rootfs| + j] == Image(Some(kernels[i]), rootfs[j])
    decreases i
  {
    var images := Product(kernels, rootfs);
    var row := Row(kernels[0], rootfs);
    var rest := Product(kernels[1..], rootfs);
    assert images == row + rest;
    if i > 0 {
      ProductAt(kernels[1..], rootfs, i - 1, j);
      MulSucc(i - 1, |rootfs|);
      assert images[i * |rootfs| + j] == rest[(i - 1) * |rootfs| + j];
    }
  }

  /** Every image of the product pairs some kernel with some root filesystem; the lemma
      names the pair, which sits at index `i * |rootfs| + j`. */
  lemma {:induction false} ProductIndex(kernels: seq<ImageSpec>, rootfs: seq<ImageSpec>, n: nat)
    returns (i: nat, j: nat)
    requires n < |Product(kernels, rootfs)|
    ensures i < |kernels| && j < |rootfs| && n == i * |rootfs| + j
    ensures Product(kernels, rootfs)[n] == Image(Some(kernels[i]), rootfs[j])
    decreases |kernels|
  {
    var images := Product(kernels, rootfs);
    var row := Row(kernels[0], rootfs);
    var rest := Product(kernels[1..], rootfs);
    assert images == row + rest;
    if n < |rootfs| {
      i, j := 0, n;
    } else {
      var i', j' := ProductIndex(kernels[1..], rootfs, n - |rootfs|);
      i, j := i' + 1, j';
      MulSucc(i', |rootfs|);
      assert images[n] == rest[n - |rootfs|];
    }
  }

  /** `ImageMatrix::into_iter`: each kernel with each root filesystem, kernel-major. */
  function Expand(matrix: ImageMatrix): (images: seq<Image>)
    ensures |images| == |matrix.kernel| * |matrix.rootfs|
    ensures matrix.kernel == [] || matrix.rootfs == [] ==> images == []
    ensures forall n | 0 <= n < |images| :: images[n].kernel.Some?
  {
    var images := Product(matrix.kernel, matrix.rootfs);
    forall n | 0 <= n < |images|
      ensures images[n].kernel.Some?
    {
      var i, j := ProductIndex(matrix.kernel, matrix.rootfs, n);
    }
    images
  }

  /** An image is in the expansion exactly when it pairs a kernel of the matrix with a root
      filesystem of the matrix. */
  lemma ExpandMembers(matrix: ImageMatrix, image: Image)
    ensures image in Expand(matrix) <==>
      image.kernel.Some? && image.kernel.value in matrix.kernel && image.rootfs in matrix.rootfs
  {
    var images := Expand(matrix);
    if image in images {
      var n :| 0 <= n < |images| && images[n] == image;
      var i, j := ProductIndex(matrix.kernel, matrix.rootfs, n);
    }
    if image.kernel.Some? && image.kernel.value in matrix.kernel && image.rootfs in matrix.rootfs {
      var i :| 0 <= i < |matrix.kernel| && matrix.kernel[i] == image.kernel.value;
      var j :| 0 <= j < |matrix.rootfs| && matrix.rootfs[j] == image.rootfs;
      ProductAt(matrix.kernel, matrix.rootfs, i, j);
    }
  }

  /** The expansion is kernel-major: pair `(i, j)` sits at index `i * |rootfs| + j`. */
  lemma ExpandOrder(matrix: ImageMatrix, i: nat, j: nat)
    requires i < |matrix.kernel| && j < |matrix.rootfs|
    ensures i * |matrix.rootfs| + j < |Expand(matrix)|
    ensures Expand(matrix)[i * |matrix.rootfs| + j] == Image(Some(matrix.kernel[i]), matrix.rootfs[j])
  {
    ProductAt(matrix.kernel, matrix.rootfs, i, j);
  }

  /** Why acquiring a guest image failed. */
  datatype GuestImageError =
    | KernelAcquireFailed(kernelCause: ImageError)
    | RootfsAcquireFailed(rootfsCause: ImageError)

  /** The daemon requests a guest image acquisition sent, and its result. */
  datatype GuestAcquisition = GuestAcquisition(requests: seq<ImageRequest>, result: Result<(), GuestImageError>)

  /** `Image::maybe_pull_kernel`: nothing to do without a kernel image; otherwise the
      kernel is acquired under its own policy, a failure reported as the kernel's. */
  function MaybePullKernel(image: Image, daemon: PullOracle): (r: GuestAcquisition)
    ensures image.kernel.None? ==> r == GuestAcquisition([], Ok(()))
    ensures image.kernel.Some? ==>
      var a := AcquireImage(image.kernel.value.imagePolicy, image.kernel.value.image, daemon);
      && r.requests == a.requests
      && (r.result.Ok? <==> a.result.Ok?)
      && (a.result.Err? ==> r.result == Err(KernelAcquireFailed(a.result.error)))
  {
    match image.kernel
    case None => GuestAcquisition([], Ok(()))
    case Some(kernel) =>
      var a := AcquireImage(kernel.imagePolicy, kernel.image, daemon);
      match a.result
      case Ok(_) => GuestAcquisition(a.requests, Ok(()))
      case Err(e) => GuestAcquisition(a.requests, Err(KernelAcquireFailed(e)))
  }

  /** `Image::pull_rootfs`: the root filesystem is always acquired under its own policy,
      a failure reported as the root filesystem's. */
  function PullRootfs(image: Image, daemon: PullOracle): (r: GuestAcquisition)
    ensures var a := AcquireImage(image.rootfs.imagePolicy, image.rootfs.image, daemon);
      && r.requests == a.requests
      && (r.result.Ok? <==> a.result.Ok?)
      && (a.result.Err? ==> r.result == Err(RootfsAcquireFailed(a.result.error)))
  {
    var a := AcquireImage(image.rootfs.imagePolicy, image.rootfs.image, daemon);
    match a.result
    case Ok(_) => GuestAcquisition(a.requests, Ok(()))
    case Err(e) => GuestAcquisition(a.requests, Err(RootfsAcquireFailed(e)))
  }

  /** A kernel whose policy never acquires anything costs nothing either. */
  lemma NeverPolicyKernelIsFree(image: Image, daemon: PullOracle)
    requires image.kernel.Some? && image.kernel.value.imagePolicy.Never?
    ensures MaybePullKernel(image, daemon) == GuestAcquisition([], Ok(()))
  {
  }

  /** The file systems a guest root can be formatted with. */
  datatype FileSystem = Ext4

  /** `impl Display for FileSystem`: the name `mkfs -t` takes. */
  function FileSystemName(fs: FileSystem): (name: string)
    ensures fs == Ext4 ==> name == "ext4"
  {
    match fs
    case Ext4 => "ext4"
  }

  /** The file system a name stands for, if any. */
  function FileSystemNamed(name: string): (fs: Option<FileSystem>)
  {
    if name == "ext4" then Some(Ext4) else None
  }

  /** The displayed name gives the file system back, and no other name does. */
  lemma FileSystemNameRoundTrip(fs: FileSystem, name: string)
    ensures FileSystemNamed(FileSystemName(fs)) == Some(fs)
    ensures FileSystemNamed(name).Some? ==> FileSystemName(FileSystemNamed(name).value) == name
  {
  }
}
