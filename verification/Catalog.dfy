/** Images joined with their registries, as the handlers and the scheduler look them up. */
module Catalog {
  import opened Wrappers
  import opened Tables
  import opened RegistrySync
  import opened ImageRef

  datatype Registry = Registry(url: string, deletedAt: Option<Time>)

  type Registries = map<RegistryId, Registry>

  /** images JOIN registries, neither soft-deleted. */
  predicate Scannable(images: Images, regs: Registries, image: ImageId) {
    && image in images && images[image].deletedAt.None?
    && images[image].registryId in regs && regs[images[image].registryId].deletedAt.None?
  }

  /** The pull reference of every image that can be scanned. */
  function Refs(images: Images, regs: Registries, hostOf: string -> Option<string>): map<ImageId, string> {
    map image | image in images && Scannable(images, regs, image) ::
      var r := images[image]; BuildImagePullRef(regs[r.registryId].url, r.repository, r.tag, hostOf)
  }

  /** A soft-deleted image has none, nor has any image of a soft-deleted registry. */
  lemma RefsIff(images: Images, regs: Registries, hostOf: string -> Option<string>, image: ImageId)
    ensures image in Refs(images, regs, hostOf) <==>
      image in images && images[image].deletedAt == None && images[image].registryId in regs &&
      regs[images[image].registryId].deletedAt == None
    ensures image in Refs(images, regs, hostOf) ==>
      var r := images[image];
      Refs(images, regs, hostOf)[image] == BuildImagePullRef(regs[r.registryId].url, r.repository, r.tag, hostOf)
  {
    hide BuildImagePullRef;
  }
}
